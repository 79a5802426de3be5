/** Directory tables: 32-byte entries on a list of sectors, seen as a map from 11-byte names (src/ff.cpp: dir_find and others). */
module DirTable {
  import opened Arith
  import opened Bytes

  type Entry = e: seq<byte> | |e| == 32 witness seq(32, _ => 0)

  type Name = n: seq<byte> | |n| == 11 witness seq(11, _ => 0x20)

  const DDE: byte := 0xE5    // first byte of a deleted entry

  /** The sector of a table, and the offset in it, that hold entry `i`. */
  function SlotSector(i: nat): nat {
    i / 16
  }

  function SlotOffset(i: nat): (o: nat)
    ensures o + 32 <= 512
  {
    i % 16 * 32
  }

  /** Entries in the same sector lie apart. */
  lemma SlotsApart(i: nat, j: nat)
    requires i != j && SlotSector(i) == SlotSector(j)
    ensures SlotOffset(i) + 32 <= SlotOffset(j) || SlotOffset(j) + 32 <= SlotOffset(i)
  {
  }

  lemma SlotBelow(i: nat, n: nat)
    ensures SlotSector(i) < n <==> i < n * 16
  {
    DivBelow(i, 16, n);
  }

  /** Number of entries that can be reached: indices are 16-bit. */
  function Reach(n: nat): nat {
    if n * 16 <= 65536 then n * 16 else 65536
  }

  /** The sectors of a table: all different, all on the disk. */
  ghost predicate SectorsOk(img: seq<Sector>, secs: seq<nat>) {
    && (forall i {:trigger secs[i]} :: 0 <= i < |secs| ==> secs[i] < |img|)
    && (forall i, j {:trigger secs[i], secs[j]} :: 0 <= i < j < |secs| ==> secs[i] != secs[j])
  }

  /** Entry `i` of the table on the sectors `secs`. */
  function EntryAt(img: seq<Sector>, secs: seq<nat>, i: nat): Entry
    requires SlotSector(i) < |secs| && secs[SlotSector(i)] < |img|
  {
    img[secs[SlotSector(i)]][SlotOffset(i)..SlotOffset(i) + 32]
  }

  lemma ReachInside(i: nat, n: nat)
    requires i < Reach(n)
    ensures SlotSector(i) < n
  {
    SlotBelow(i, n);
  }

  /** The table as a sequence of entries. */
  ghost function Table(img: seq<Sector>, secs: seq<nat>): (t: seq<Entry>)
    requires SectorsOk(img, secs)
    ensures |t| == Reach(|secs|)
  {
    seq(Reach(|secs|), i requires 0 <= i < Reach(|secs|) => ReachInside(i, |secs|); EntryAt(img, secs, i))
  }

  lemma TableAt(img: seq<Sector>, secs: seq<nat>, i: nat)
    requires SectorsOk(img, secs) && i < Reach(|secs|)
    ensures SlotSector(i) < |secs| && Table(img, secs)[i] == EntryAt(img, secs, i)
  {
    ReachInside(i, |secs|);
  }

  /** Storing bytes inside one entry changes that entry only. */
  lemma EntryPatched(img: seq<Sector>, secs: seq<nat>, i: nat, o: nat, b: seq<byte>)
    requires SectorsOk(img, secs) && i < Reach(|secs|) && o + |b| <= 32
    ensures SlotSector(i) < |secs| && secs[SlotSector(i)] < |img| && SlotOffset(i) + o + |b| <= 512
    ensures var s := secs[SlotSector(i)];
            var img' := img[s := Patch(img[s], SlotOffset(i) + o, b)];
            SectorsOk(img', secs) && Table(img', secs) == Table(img, secs)[i := Patch(Table(img, secs)[i], o, b)]
  {
    hide Patch, SlotSector, SlotOffset, Reach;
    TableAt(img, secs, i);
    var s, at := secs[SlotSector(i)], SlotOffset(i) + o;
    var img' := img[s := Patch(img[s], at, b)];
    var t, t' := Table(img, secs), Table(img', secs);
    PatchSlice(img[s], SlotOffset(i), o, b);
    forall j | 0 <= j < |t| ensures t'[j] == t[i := Patch(t[i], o, b)][j] {
      TableAt(img, secs, j);
      TableAt(img', secs, j);
      if j != i && secs[SlotSector(j)] == s {
        SlotsApart(i, j);
        PatchElsewhere(img[s], at, b, SlotOffset(j));
      }
    }
  }

  lemma PatchSlice(m: seq<byte>, at: nat, o: nat, b: seq<byte>)
    requires at + 32 <= |m| && o + |b| <= 32
    ensures Patch(m, at + o, b)[at..at + 32] == Patch(m[at..at + 32], o, b)
  {
    hide Patch;
    PatchBytes(m, at + o, b);
    PatchBytes(m[at..at + 32], o, b);
  }

  lemma PatchElsewhere(m: seq<byte>, at: nat, b: seq<byte>, lo: nat)
    requires at + |b| <= |m| && lo + 32 <= |m| && (lo + 32 <= at || at + |b| <= lo)
    ensures Patch(m, at, b)[lo..lo + 32] == m[lo..lo + 32]
  {
    hide Patch;
    PatchBytes(m, at, b);
  }

  /** A table does not depend on other sectors. */
  lemma TableKept(img: seq<Sector>, img': seq<Sector>, secs: seq<nat>)
    requires SectorsOk(img, secs) && |img'| == |img|
    requires forall i {:trigger secs[i]} :: 0 <= i < |secs| ==> img'[secs[i]] == img[secs[i]]
    ensures SectorsOk(img', secs) && Table(img', secs) == Table(img, secs)
  {
    hide SlotSector, SlotOffset, Reach;
    var t, t' := Table(img, secs), Table(img', secs);
    forall j | 0 <= j < |t| ensures t'[j] == t[j] {
      TableAt(img, secs, j);
      TableAt(img', secs, j);
    }
  }

  /** A table stretched by zeroed sectors has empty entries behind the old ones. */
  lemma TableGrows(img: seq<Sector>, secs: seq<nat>, more: seq<nat>)
    requires SectorsOk(img, secs + more)
    requires forall i {:trigger more[i]} :: 0 <= i < |more| ==> more[i] < |img| && img[more[i]] == ZeroSector()
    ensures SectorsOk(img, secs)
    ensures |Table(img, secs)| <= |Table(img, secs + more)| && Table(img, secs + more)[..|Table(img, secs)|] == Table(img, secs)
    ensures forall j {:trigger Table(img, secs + more)[j]} :: |secs| * 16 <= j < |Table(img, secs + more)| ==>
            AllZero(Table(img, secs + more)[j])
  {
    hide SlotSector, SlotOffset;
    PrefixOk(img, secs, more);
    var t, t' := Table(img, secs), Table(img, secs + more);
    forall j | 0 <= j < |t| ensures t'[j] == t[j] {
      TableAt(img, secs, j);
      TableAt(img, secs + more, j);
    }
    forall j | |secs| * 16 <= j < |t'| ensures AllZero(t'[j]) {
      TableAt(img, secs + more, j);
      SlotBelow(j, |secs|);
      assert (secs + more)[SlotSector(j)] == more[SlotSector(j) - |secs|];
    }
  }

  lemma PrefixOk(img: seq<Sector>, secs: seq<nat>, more: seq<nat>)
    requires SectorsOk(img, secs + more)
    ensures SectorsOk(img, secs)
  {
    forall i | 0 <= i < |secs| ensures secs[i] < |img| { assert (secs + more)[i] == secs[i]; }
    forall i, j | 0 <= i < j < |secs| ensures secs[i] != secs[j] { assert (secs + more)[i] == secs[i] && (secs + more)[j] == secs[j]; }
  }

  predicate AllZero(e: seq<byte>) {
    forall k {:trigger e[k]} :: 0 <= k < |e| ==> e[k] == 0
  }

  /** Attribute bits: a volume label, a directory, a read-only object. */
  predicate IsLabel(e: Entry) {
    e[11] / 8 % 2 == 1
  }

  predicate IsDir(e: Entry) {
    e[11] / 16 % 2 == 1
  }

  predicate IsReadOnly(e: Entry) {
    e[11] % 2 == 1
  }

  predicate Blank(e: Entry) {
    e[0] == 0 || e[0] == DDE
  }

  /** An entry that names a file or a directory. */
  predicate Live(e: Entry) {
    !Blank(e) && !IsLabel(e)
  }

  /** A name that create_name can produce. */
  predicate NameOk(n: Name) {
    n[0] != 0 && n[0] != DDE
  }

  predicate Matches(e: Entry, n: Name) {
    !IsLabel(e) && e[..11] == n
  }

  /** Behind an end mark, there are only end marks. */
  ghost predicate EndMarked(t: seq<Entry>) {
    forall i, j {:trigger t[i], t[j]} :: 0 <= i < j < |t| && t[i][0] == 0 ==> t[j][0] == 0
  }

  ghost predicate NamesUnique(t: seq<Entry>) {
    forall i, j {:trigger t[i], t[j]} :: 0 <= i < j < |t| && Live(t[i]) && Live(t[j]) ==> t[i][..11] != t[j][..11]
  }

  ghost predicate TableOk(t: seq<Entry>) {
    EndMarked(t) && NamesUnique(t)
  }

  ghost predicate Binds(t: seq<Entry>, n: Name, i: nat) {
    i < |t| && Live(t[i]) && t[i][..11] == n
  }

  /** The table as a map from names to slots. */
  ghost function NameMap(t: seq<Entry>): map<Name, nat> {
    if t == [] then map[]
    else
      var front, e := t[..|t| - 1], t[|t| - 1];
      if Live(e) then NameMap(front)[e[..11] := |t| - 1] else NameMap(front)
  }

  lemma {:induction false} NameMapBinds(t: seq<Entry>, n: Name)
    requires NamesUnique(t)
    ensures n in NameMap(t) ==> Binds(t, n, NameMap(t)[n])
    ensures forall i: nat {:trigger Binds(t, n, i)} :: Binds(t, n, i) ==> n in NameMap(t) && NameMap(t)[n] == i
  {
    hide Live, IsLabel;
    if t != [] {
      var front, e := t[..|t| - 1], t[|t| - 1];
      assert forall i :: 0 <= i < |front| ==> front[i] == t[i];
      NameMapBinds(front, n);
      forall i: nat | Binds(t, n, i) ensures n in NameMap(t) && NameMap(t)[n] == i {
        if i < |front| {
          assert Binds(front, n, i);
          assert Live(e) ==> t[i][..11] != e[..11];
        }
      }
    }
  }

  lemma LiveBinds(t: seq<Entry>, i: nat)
    requires TableOk(t) && i < |t| && Live(t[i])
    ensures t[i][..11] in NameMap(t) && NameMap(t)[t[i][..11]] == i
  {
    hide NameMap, Live;
    NameMapBinds(t, t[i][..11]);
    assert Binds(t, t[i][..11], i);
  }

  /** The scan of dir_find: the first slot that matches, unless an end mark or the end of the table comes first. */
  function Scan(t: seq<Entry>, n: Name, i: nat): (r: nat)
    requires i <= |t|
    ensures i <= r <= |t|
    decreases |t| - i
  {
    if i == |t| || t[i][0] == 0 then |t| else if Matches(t[i], n) then i else Scan(t, n, i + 1)
  }

  lemma ScanStep(t: seq<Entry>, n: Name, i: nat)
    ensures Scan(t, n, |t|) == |t|
    ensures i < |t| ==> Scan(t, n, i) == if t[i][0] == 0 then |t| else if Matches(t[i], n) then i else Scan(t, n, i + 1)
  {
  }

  lemma {:induction false} ScanFrom(t: seq<Entry>, n: Name, i: nat)
    requires TableOk(t) && NameOk(n) && i <= |t|
    requires forall j: nat {:trigger Binds(t, n, j)} :: j < i ==> !Binds(t, n, j)
    ensures var r := Scan(t, n, i);
            if r < |t| then Binds(t, n, r) else forall j: nat {:trigger Binds(t, n, j)} :: !Binds(t, n, j)
    decreases |t| - i
  {
    hide IsLabel;
    if i < |t| && t[i][0] != 0 {
      if !Matches(t[i], n) {
        ScanFrom(t, n, i + 1);
      }
    }
  }

  /** dir_find refines a lookup in the map. */
  lemma ScanIsLookup(t: seq<Entry>, n: Name)
    requires TableOk(t) && NameOk(n)
    ensures Scan(t, n, 0) < |t| <==> n in NameMap(t)
    ensures n in NameMap(t) ==> Scan(t, n, 0) == NameMap(t)[n]
  {
    hide Scan;
    ScanFrom(t, n, 0);
    NameMapBinds(t, n);
    var r := Scan(t, n, 0);
    if r < |t| { assert Binds(t, n, r); }
  }

  /** An entry that dir_read returns: neither deleted, nor a dot entry, nor a volume label. */
  predicate IsItem(e: Entry) {
    e[0] != DDE && e[0] != 0x2E && e[11] % 64 != 0x0F && e[11] % 64 != 0x08
  }

  /** The scan of dir_read for files and directories. */
  function ItemScan(t: seq<Entry>, i: nat): (r: nat)
    requires i <= |t|
    ensures i <= r <= |t|
    decreases |t| - i
  {
    if i == |t| || t[i][0] == 0 then |t| else if IsItem(t[i]) then i else ItemScan(t, i + 1)
  }

  lemma ItemScanStep(t: seq<Entry>, i: nat)
    ensures ItemScan(t, |t|) == |t|
    ensures i < |t| ==> ItemScan(t, i) == if t[i][0] == 0 then |t| else if IsItem(t[i]) then i else ItemScan(t, i + 1)
  {
  }

  /** The entries that dir_read passes over: end marks, deleted and dot entries, long names and volume labels. */
  predicate PassedOver(e: Entry) {
    e[0] in {0, 0xE5, 0x2E} || e[11] % 64 in {0x08, 0x0F}
  }

  /** dir_read finds nothing exactly if there are only such entries. */
  lemma {:induction false} NothingFoundIff(t: seq<Entry>, i: nat)
    requires EndMarked(t) && i <= |t|
    ensures ItemScan(t, i) == |t| <==> forall j {:trigger t[j]} :: i <= j < |t| ==> PassedOver(t[j])
    decreases |t| - i
  {
    if i < |t| && t[i][0] != 0 && !IsItem(t[i]) {
      NothingFoundIff(t, i + 1);
    }
  }

  /** Where dir_read finds nothing, nothing is named. */
  lemma {:induction false} NoItems(t: seq<Entry>, i: nat)
    requires EndMarked(t) && i <= |t| && ItemScan(t, i) == |t|
    ensures forall j {:trigger t[j]} :: i <= j < |t| ==> !Live(t[j]) || t[j][0] == 0x2E
    decreases |t| - i
  {
    hide Live, IsItem;
    if i < |t| {
      ItemOrNot(t[i]);
      if t[i][0] == 0 {
        forall j | i <= j < |t| ensures !Live(t[j]) { ItemOrNot(t[j]); }
      } else {
        NoItems(t, i + 1);
      }
    }
  }

  lemma ItemOrNot(e: Entry)
    ensures !IsItem(e) ==> !Live(e) || e[0] == 0x2E
    ensures e[0] == 0 ==> !Live(e)
  {
    LabelBit(e[11]);
  }

  lemma LabelBit(a: byte)
    ensures a % 64 == 0x0F || a % 64 == 0x08 ==> a / 8 % 2 == 1
  {
    assert a == a / 64 * 64 + a % 64;
    if a % 64 == 0x0F { DivModUnique(a, 8, a / 64 * 8 + 1, 7); assert a / 8 == 2 * (a / 64 * 4) + 1; }
    if a % 64 == 0x08 { DivModUnique(a, 8, a / 64 * 8 + 1, 0); assert a / 8 == 2 * (a / 64 * 4) + 1; }
  }

  /** The first blank slot at or behind `i`. */
  function FirstBlank(t: seq<Entry>, i: nat): (r: nat)
    requires i <= |t|
    ensures i <= r <= |t|
    decreases |t| - i
  {
    if i == |t| || Blank(t[i]) then i else FirstBlank(t, i + 1)
  }

  lemma {:induction false} NoBlankBefore(t: seq<Entry>, i: nat)
    requires i <= |t|
    ensures forall j {:trigger t[j]} :: i <= j < FirstBlank(t, i) ==> !Blank(t[j])
    ensures FirstBlank(t, i) < |t| ==> Blank(t[FirstBlank(t, i)])
    decreases |t| - i
  {
    if i < |t| && !Blank(t[i]) {
      NoBlankBefore(t, i + 1);
    }
  }

  lemma FirstBlankStep(t: seq<Entry>, i: nat)
    ensures FirstBlank(t, |t|) == |t|
    ensures i < |t| ==> FirstBlank(t, i) == if Blank(t[i]) then i else FirstBlank(t, i + 1)
  {
  }

  /** The first blank slot of a table that was full is the first one behind it. */
  lemma {:induction false} BlankBehind(t: seq<Entry>, t': seq<Entry>, i: nat)
    requires i <= |t| < |t'| && t'[..|t|] == t && AllZero(t'[|t|]) && FirstBlank(t, i) == |t|
    ensures FirstBlank(t', i) == |t|
    decreases |t| - i
  {
    if i < |t| {
      assert t'[i] == t'[..|t|][i] == t[i];
      BlankBehind(t, t', i + 1);
    }
  }

  /** Replacing one slot of a table changes the map at that slot's names only. */
  lemma SlotReplaced(t: seq<Entry>, k: nat, e: Entry, n: Name, i: nat)
    requires k < |t|
    ensures Binds(t[k := e], n, i) <==> if i == k then Live(e) && e[..11] == n else Binds(t, n, i)
  {
  }

  /** `t'` is `t` outside slot `k`, perhaps with empty entries at the end. */
  ghost predicate KeptBut(t: seq<Entry>, t': seq<Entry>, k: nat) {
    && |t| <= |t'| && (forall j {:trigger t'[j]} :: 0 <= j < |t| && j != k ==> t'[j] == t[j])
    && (forall j {:trigger t'[j]} :: |t| <= j < |t'| && j != k ==> AllZero(t'[j]))
  }

  lemma GrownKept(t: seq<Entry>, t1: seq<Entry>, k: nat, e: Entry)
    requires |t| <= |t1| && k < |t1| && t1[..|t|] == t && forall j {:trigger t1[j]} :: |t| <= j < |t1| ==> AllZero(t1[j])
    ensures KeptBut(t, t1[k := e], k)
  {
    hide AllZero;
    assert forall i :: 0 <= i < |t| ==> t1[i] == t1[..|t|][i];
  }

  /** A fresh entry: the name, and zeros. */
  function NewEntry(n: Name): Entry {
    n + seq(21, _ => 0)
  }

  lemma NewEntryLive(e: Entry, n: Name)
    requires NameOk(n)
    ensures Patch(Patch(e, 0, seq(32, _ => 0)), 0, n) == NewEntry(n)
    ensures Live(NewEntry(n)) && NewEntry(n)[..11] == n
  {
    var z: seq<byte> := seq(32, _ => 0);
    assert Patch(e, 0, z) == z;
    assert Patch(z, 0, n) == NewEntry(n);
    assert NewEntry(n)[0] == n[0] && NewEntry(n)[11] == 0;
  }

  /** Registering a new name in the first blank slot adds exactly that binding; the table stays in order. */
  lemma RegisterAdds(t: seq<Entry>, n: Name, e: Entry)
    requires TableOk(t) && NameOk(n) && n !in NameMap(t) && FirstBlank(t, 0) < |t| && Live(e) && e[..11] == n
    ensures var t' := t[FirstBlank(t, 0) := e];
            TableOk(t') && NameMap(t') == NameMap(t)[n := FirstBlank(t, 0)]
  {
    hide IsLabel, FirstBlank, NameMap, Live;
    var k := FirstBlank(t, 0);
    var t' := t[k := e];
    NoBlankBefore(t, 0);
    EndStays(t, k, e);
    forall i, j | 0 <= i < j < |t'| && Live(t'[i]) && Live(t'[j]) ensures t'[i][..11] != t'[j][..11] {
      NotBound(t, n, if i == k then j else i);
    }
    BlankNotLive(t[k]);
    MapsAgree(t, t', k, n);
  }

  lemma BlankNotLive(e: Entry)
    ensures Blank(e) ==> !Live(e)
  {
  }

  lemma EndStays(t: seq<Entry>, k: nat, e: Entry)
    requires EndMarked(t) && k < |t| && Blank(t[k]) && e[0] != 0 && forall j {:trigger t[j]} :: 0 <= j < k ==> !Blank(t[j])
    ensures EndMarked(t[k := e])
  {
  }

  lemma NotBound(t: seq<Entry>, n: Name, i: nat)
    requires NamesUnique(t) && n !in NameMap(t)
    ensures !Binds(t, n, i)
  {
    NameMapBinds(t, n);
  }

  lemma MapsAgree(t: seq<Entry>, t': seq<Entry>, k: nat, n: Name)
    requires NamesUnique(t) && NamesUnique(t') && k < |t| == |t'| && t' == t[k := t'[k]] && Live(t'[k])
             && t'[k][..11] == n && !Live(t[k])
    requires n !in NameMap(t)
    ensures NameMap(t') == NameMap(t)[n := k]
  {
    hide Live, NameMap;
    forall m: Name ensures m in NameMap(t') <==> m == n || m in NameMap(t) {
      SameBinding(t, t', k, m);
      NameMapBinds(t', n);
      assert Binds(t', n, k);
    }
    forall m: Name | m in NameMap(t') ensures NameMap(t')[m] == if m == n then k else NameMap(t)[m] {
      SameBinding(t, t', k, m);
      NameMapBinds(t', n);
      assert Binds(t', n, k);
    }
  }

  /** Names other than the one at the changed slot keep their slots. */
  lemma SameBinding(t: seq<Entry>, t': seq<Entry>, k: nat, m: Name)
    requires NamesUnique(t) && NamesUnique(t') && k < |t| == |t'| && t' == t[k := t'[k]] && !Live(t[k])
    ensures (Live(t'[k]) && t'[k][..11] == m) || (m in NameMap(t') <==> m in NameMap(t))
    ensures m in NameMap(t') && m in NameMap(t) && !(Live(t'[k]) && t'[k][..11] == m) ==> NameMap(t')[m] == NameMap(t)[m]
  {
    hide Live, NameMap;
    NameMapBinds(t, m);
    NameMapBinds(t', m);
    if m in NameMap(t) { SlotReplaced(t, k, t'[k], m, NameMap(t)[m]); }
    if m in NameMap(t') { SlotReplaced(t, k, t'[k], m, NameMap(t')[m]); }
  }

  /** Deleting the entry of a name removes exactly that binding; no end mark appears. */
  lemma RemoveDeletes(t: seq<Entry>, n: Name)
    requires TableOk(t) && n in NameMap(t)
    ensures NameMap(t)[n] < |t|
    ensures var k := NameMap(t)[n];
            var t' := t[k := Patch(t[k], 0, [DDE])];
            TableOk(t') && NameMap(t') == NameMap(t) - {n}
  {
    NameMapBinds(t, n);
    var k := NameMap(t)[n];
    var e := Patch(t[k], 0, [DDE]);
    var t' := t[k := e];
    DeletedEntry(t[k], e);
    hide NameMap, Live, Patch;
    assert NamesUnique(t');
    var back := t'[k := t[k]];
    assert back == t;
    forall m: Name ensures m in NameMap(t') <==> m != n && m in NameMap(t) {
      SameBinding(t', t, k, m);
      NameMapBinds(t', n);
      if n in NameMap(t') { SlotReplaced(t, k, e, n, NameMap(t')[n]); NameMapBinds(t, n); assert false; }
    }
    forall m: Name | m in NameMap(t') ensures NameMap(t')[m] == NameMap(t)[m] {
      SameBinding(t', t, k, m);
    }
  }

  lemma DeletedEntry(e: Entry, e': Entry)
    requires e' == Patch(e, 0, [DDE])
    ensures !Live(e') && e'[0] == DDE
  {
  }

  /** Changing an entry behind its name and outside its label bit keeps the map. */
  lemma UpdateKeepsMap(t: seq<Entry>, k: nat, e: Entry)
    requires TableOk(t) && k < |t| && Live(t[k]) && Live(e) && e[..11] == t[k][..11]
    ensures TableOk(t[k := e]) && NameMap(t[k := e]) == NameMap(t)
  {
    hide NameMap;
    var t' := t[k := e];
    assert e[0] == e[..11][0] == t[k][..11][0] == t[k][0];
    assert TableOk(t');
    forall m: Name ensures (m in NameMap(t') <==> m in NameMap(t))
           && (m in NameMap(t) && m in NameMap(t') ==> NameMap(t')[m] == NameMap(t)[m]) {
      NameMapBinds(t, m);
      NameMapBinds(t', m);
      if m in NameMap(t) { assert Binds(t', m, NameMap(t)[m]); }
      if m in NameMap(t') { assert Binds(t, m, NameMap(t')[m]); }
    }
  }

  /** Stretching a table by empty entries keeps the map, and gives it a blank slot. */
  lemma {:induction false} GrowKeepsMap(t: seq<Entry>, t': seq<Entry>)
    requires TableOk(t) && |t| <= |t'| && t'[..|t|] == t && forall j {:trigger t'[j]} :: |t| <= j < |t'| ==> AllZero(t'[j])
    ensures TableOk(t') && NameMap(t') == NameMap(t)
    decreases |t'|
  {
    hide Live;
    assert forall i :: 0 <= i < |t| ==> t'[i] == t'[..|t|][i];
    forall j | |t| <= j < |t'| ensures !Live(t'[j]) && t'[j][0] == 0 { ZeroNotLive(t'[j]); }
    if |t'| > |t| {
      assert t'[..|t'| - 1][..|t|] == t'[..|t|];
      GrowKeepsMap(t, t'[..|t'| - 1]);
    } else {
      assert t' == t;
    }
  }

  lemma ZeroNotLive(e: Entry)
    requires AllZero(e)
    ensures !Live(e) && e[0] == 0
  {
  }
}
