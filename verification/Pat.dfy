/** Program association tables: the generator of src/dvbpsi.cpp, and a decoder after ISO/IEC 13818-1, 2.4.4.3. */
module Pat {
  import opened Arith
  import opened Bytes
  import opened Psi
  import Crc

  datatype Program = Program(number: nat, pid: nat)

  datatype Option<T> = None | Some(value: T)

  predicate ProgramOk(p: Program) {
    p.number < 0x1_0000 && 0 < p.pid < 0x2000
  }

  /** The four bytes of a program. */
  function Entry(p: Program): (b: seq<byte>)
    ensures |b| == 4
  {
    [p.number / 0x100 % 0x100, p.number % 0x100, p.pid / 0x100 % 0x20 + 0xE0, p.pid % 0x100]
  }

  function Payload(ps: seq<Program>): (b: seq<byte>)
    ensures |b| == 4 * |ps|
  {
    if ps == [] then [] else Payload(ps[..|ps| - 1]) + Entry(ps[|ps| - 1])
  }

  /** The programs dealt out to sections, `m` to each but the last. */
  function Chunks(ps: seq<Program>, m: nat): (c: seq<seq<Program>>)
    requires m > 0
    ensures |c| > 0
  {
    if |ps| <= m then [ps] else [ps[..m]] + Chunks(ps[m..], m)
  }

  function Joined(c: seq<seq<Program>>): seq<Program> {
    if c == [] then [] else c[0] + Joined(c[1..])
  }

  /** No program is lost or moved by the dealing, and no section gets more than `m`. */
  lemma {:induction false} ChunksJoin(ps: seq<Program>, m: nat)
    requires m > 0
    ensures Joined(Chunks(ps, m)) == ps
    ensures forall k {:trigger Chunks(ps, m)[k]} :: 0 <= k < |Chunks(ps, m)| ==> |Chunks(ps, m)[k]| <= m
  {
    if |ps| > m {
      ChunksJoin(ps[m..], m);
      assert Chunks(ps, m)[1..] == Chunks(ps[m..], m);
      assert ps == ps[..m] + ps[m..];
      forall k | 0 <= k < |Chunks(ps, m)| ensures |Chunks(ps, m)[k]| <= m {
        if k > 0 { assert Chunks(ps, m)[k] == Chunks(ps[m..], m)[k - 1]; }
      }
    } else {
      assert Chunks(ps, m)[1..] == [];
      assert Joined(Chunks(ps, m)) == ps + [];
    }
  }

  /** Section `k` of a table of `n` sections. */
  function PatSection(tsId: nat, version: nat, current: bool, chunk: seq<Program>, k: nat, n: nat): seq<byte>
    requires n > 0
  {
    Protected(Header(0, false, 9 + 4 * |chunk|, tsId, version, current, k % 0x100, (n - 1) % 0x100) + Payload(chunk))
  }

  /** A program in the table's linked list. */
  class Node {
    const program: Program
    var next: Node?

    constructor (program: Program)
      ensures this.program == program && next == null
    {
      this.program, next := program, null;
    }
  }

  ghost predicate Different(ns: seq<Node>) {
    forall i, j {:trigger ns[i], ns[j]} :: 0 <= i < j < |ns| ==> ns[i] != ns[j]
  }

  /** `ns` is a list linked through `next`, without repetition. */
  ghost predicate Linked(ns: seq<Node>)
    reads ns
  {
    Different(ns) && forall i {:trigger ns[i]} :: 0 <= i < |ns| ==> ns[i].next == if i + 1 < |ns| then ns[i + 1] else null
  }

  lemma DifferentGrows(ns: seq<Node>, p: Node)
    requires Different(ns) && p !in ns
    ensures Different(ns + [p]) && forall i {:trigger ns[i]} :: 0 <= i < |ns| ==> ns[i] != p && (i < |ns| - 1 ==> ns[i] != ns[|ns| - 1])
  {
    assert forall i :: 0 <= i < |ns| ==> ns[i] in ns;
  }

  /** Links a node behind the last one. */
  method Link(last: Node, p: Node, ghost ns: seq<Node>)
    requires Linked(ns) && ns != [] && last == ns[|ns| - 1] && p !in ns && p.next == null
    modifies last`next
    ensures Linked(ns + [p])
  {
    DifferentGrows(ns, p);
    hide Different;
    last.next := p;
  }

  lemma OneLinked(p: Node)
    requires p.next == null
    ensures Linked([p])
  {
  }

  class Table {
    const tsId: nat
    const version: nat
    const currentNext: bool
    var first: Node?
    ghost var nodes: seq<Node>
    ghost var programs: seq<Program>

    /** The list that starts at `first` holds the programs, in order. */
    ghost predicate Valid()
      reads this, nodes
    {
      && Linked(nodes) && first == (if nodes == [] then null else nodes[0])
      && Shows(nodes, programs)
    }

    static ghost predicate Shows(ns: seq<Node>, ps: seq<Program>) {
      |ps| == |ns| && forall i {:trigger ns[i]} :: 0 <= i < |ns| ==> ns[i].program == ps[i]
    }

    lemma ShowsMore(ns: seq<Node>, ps: seq<Program>, p: Node)
      requires Shows(ns, ps)
      ensures Shows(ns + [p], ps + [p.program])
    {
    }

    /** The node at position `i` of the list. */
    lemma NodeAt(i: nat)
      requires Valid() && i < |nodes|
      ensures |programs| == |nodes| && nodes[i].program == programs[i]
      ensures nodes[i].next == if i + 1 < |nodes| then nodes[i + 1] else null
    {
    }

    lemma FirstNode()
      requires Valid()
      ensures |programs| == |nodes| && first == if nodes == [] then null else nodes[0]
    {
    }

    constructor (tsId: nat, version: nat, currentNext: bool)
      ensures this.tsId == tsId && this.version == version && this.currentNext == currentNext
      ensures Valid() && programs == [] && nodes == []
    {
      this.tsId, this.version, this.currentNext := tsId, version, currentNext;
      first, nodes, programs := null, [], [];
    }

    /** Follows the list to its last program. */
    method Last() returns (p: Node)
      requires Valid() && nodes != []
      ensures p == nodes[|nodes| - 1]
    {
      hide Linked, Shows;
      p := first;
      ghost var i := 0;
      NodeAt(0);
      while p.next != null
        invariant 0 <= i < |nodes| && p == nodes[i]
        invariant p.next == if i + 1 < |nodes| then nodes[i + 1] else null
        decreases |nodes| - i
      {
        p := p.next;
        i := i + 1;
        NodeAt(i);
      }
    }

    /** Adds a program at the end; PID 0 is refused. */
    method ProgramAdd(number: nat, pid: nat) returns (ok: bool)
      requires Valid()
      modifies this`first, this`nodes, this`programs, if nodes == [] then {} else {nodes[|nodes| - 1]}
      ensures Valid() && ok == (pid != 0)
      ensures programs == if ok then old(programs) + [Program(number, pid)] else old(programs)
    {
      hide Linked, Shows;
      if pid == 0 { return false; }
      ghost var ns := nodes;
      var p := new Node(Program(number, pid));
      if first == null {
        first := p;
        OneLinked(p);
        assert ns + [p] == [p];
      } else {
        var last := Last();
        Link(last, p, ns);
      }
      ShowsMore(ns, programs, p);
      nodes := ns + [p];
      programs := programs + [Program(number, pid)];
      return true;
    }

    /** A section under construction holds the header fields and the programs given to it. */
    ghost predicate Holds(s: Section, chunk: seq<Program>, k: nat)
      reads s, s.data
    {
      && s.data.Length == 1024 && s.end == 8 + 4 * |chunk| && s.length == 9 + 4 * |chunk| && s.end <= 1020
      && s.tableId == 0 && s.extension == tsId && s.version == version && s.currentNext == currentNext && s.number == k % 0x100
      && s.data[8..s.end] == Payload(chunk)
    }

    method NewSection(number: nat, ghost k: nat) returns (s: Section)
      requires number % 0x100 == k % 0x100
      ensures fresh(s) && fresh(s.data) && Holds(s, [], k)
    {
      s := new Section(0, tsId, version, currentNext, number % 0x100, 8);
    }

    /** Appends one program to a section. */
    method AddTo(s: Section, p: Program, ghost chunk: seq<Program>, ghost k: nat)
      requires Holds(s, chunk, k) && |chunk| < 253
      modifies s`end, s`length, s.data
      ensures Holds(s, chunk + [p], k)
    {
      hide Entry;
      ghost var d := s.data[..s.end];
      assert s.data[8..s.end] == d[8..];
      s.Append(Entry(p));
      assert s.data[8..s.end] == s.data[..s.end][8..] == d[8..] + Entry(p);
      assert (chunk + [p])[..|chunk|] == chunk;
    }

    /** The sections in `ss` and their arrays are all different objects. */
    ghost predicate Apart(ss: seq<Section>)
    {
      forall i, j {:trigger ss[i], ss[j]} :: 0 <= i < j < |ss| ==> ss[i] != ss[j] && ss[i].data != ss[j].data
    }

    /** The section behind a full one. */
    method Follow(cur: Section, ghost chunk: seq<Program>, ghost k: nat) returns (s: Section)
      requires Holds(cur, chunk, k)
      ensures fresh(s) && fresh(s.data) && Holds(s, [], k + 1)
    {
      hide Payload, Holds;
      NumberOf(cur, chunk, k);
      s := NewSection(cur.number + 1, k + 1);
    }

    /** Deals the programs out to sections. */
    method Fill(m: nat) returns (ss: seq<Section>)
      requires 0 < m <= 253 && Valid()
      ensures fresh(ss) && Apart(ss) && |ss| == |Chunks(programs, m)|
      ensures forall i {:trigger ss[i]} :: 0 <= i < |ss| ==> fresh(ss[i].data) && Holds(ss[i], Chunks(programs, m)[i], i)
    {
      hide Payload, Entry, Holds, Chunks, Valid, Linked, Shows;
      FirstNode();
      var cur := NewSection(0, 0);
      ss := [];
      ghost var done: seq<seq<Program>> := [];
      ghost var from := 0;
      var count, p := 0, first;
      ghost var i := 0;
      assert programs[0..] == programs && programs[0..0] == [] && [] + Chunks(programs, m) == Chunks(programs, m);
      while p != null
        invariant Valid() && 0 <= i <= |nodes| == |programs| && p == (if i < |nodes| then nodes[i] else null)
        invariant 0 <= from <= i <= |programs| && count == i - from <= m
        invariant Chunks(programs, m) == done + Chunks(programs[from..], m)
        invariant |ss| == |done| && Apart(ss) && fresh(ss) && fresh(cur) && fresh(cur.data) && cur !in ss
        invariant forall j {:trigger ss[j]} :: 0 <= j < |ss| ==> fresh(ss[j].data) && ss[j].data != cur.data && Holds(ss[j], done[j], j)
        invariant Holds(cur, programs[from..i], |done|)
        decreases |nodes| - i
      {
        count := count + 1;
        if count > m {
          ChunkDone(programs, m, from, i);
          ss := ss + [cur];
          cur := Follow(cur, programs[from..i], |done|);
          done := done + [programs[from..i]];
          from := i;
          count := 1;
        }
        NodeAt(i);
        AddTo(cur, p.program, programs[from..i], |done|);
        assert programs[from..i] + [programs[i]] == programs[from..i + 1];
        p := p.next;
        i := i + 1;
      }
      assert i == |programs|;
      assert programs[from..] == programs[from..i];
      LastChunk(programs[from..], m);
      ss := ss + [cur];
    }

    lemma NumberOf(s: Section, chunk: seq<Program>, k: nat)
      requires Holds(s, chunk, k)
      ensures (s.number + 1) % 0x100 == (k + 1) % 0x100
    {
    }

    /** A built section. */
    ghost predicate Built(s: Section, chunk: seq<Program>, k: nat, n: nat)
      reads s, s.data
    {
      && n > 0 && s.data.Length == 1024 && s.end <= 1020
      && s.data[..s.end + 4] == PatSection(tsId, version, currentNext, chunk, k, n)
    }

    method BuildOne(s: Section, last: nat, ghost chunk: seq<Program>, ghost k: nat, ghost n: nat)
      requires Holds(s, chunk, k) && n > 0 && last == (n - 1) % 0x100
      modifies s`lastNumber, s`crc, s.data
      ensures Built(s, chunk, k, n)
    {
      hide Payload, Header, Protected, Checks, Entry, Crc.Divide, Crc.Complemented;
      assert s.data[8..s.end] == Payload(chunk);
      s.lastNumber := last;
      s.Build();
    }

    /** dvbpsi_pat_sections_generate: at most `maxPps` programs to a section, 253 if that is not a usable limit. */
    method SectionsGenerate(maxPps: int) returns (ss: seq<Section>)
      requires Valid()
      ensures fresh(ss)
      ensures var m := if maxPps <= 0 || maxPps > 253 then 253 else maxPps;
              var c := Chunks(programs, m);
              && |ss| == |c|
              && forall i {:trigger ss[i]} :: 0 <= i < |ss| ==>
                   ss[i].data.Length == 1024 && ss[i].end <= 1020
                   && ss[i].data[..ss[i].end + 4] == PatSection(tsId, version, currentNext, c[i], i, |c|)
    {
      hide Payload, Entry, Header, Protected, Holds, Chunks, Valid, Linked, Shows;
      var m := maxPps;
      if m <= 0 || m > 253 { m := 253; }
      ss := Fill(m);
      ghost var c := Chunks(programs, m);
      var last := ss[|ss| - 1].number;
      LastNumber(ss[|ss| - 1], c[|c| - 1], |c| - 1);
      var k := 0;
      while k < |ss|
        invariant 0 <= k <= |ss| == |c|
        invariant Apart(ss) && fresh(ss) && forall i {:trigger ss[i]} :: 0 <= i < |ss| ==> fresh(ss[i].data)
        invariant forall i {:trigger ss[i]} :: k <= i < |ss| ==> Holds(ss[i], c[i], i)
        invariant forall i {:trigger ss[i]} :: 0 <= i < k ==> Built(ss[i], c[i], i, |c|)
      {
        BuildOne(ss[k], last, c[k], k, |c|);
        k := k + 1;
      }
    }

    lemma LastNumber(s: Section, chunk: seq<Program>, k: nat)
      requires Holds(s, chunk, k)
      ensures s.number == k % 0x100
    {
    }
  }

  lemma LastChunk(ps: seq<Program>, m: nat)
    requires 0 < m && |ps| <= m
    ensures Chunks(ps, m) == [ps]
  {
  }

  /** One step of the dealing. */
  lemma ChunkDone(ps: seq<Program>, m: nat, from: nat, i: nat)
    requires 0 < m && from <= i < |ps| && i - from == m
    ensures Chunks(ps[from..], m) == [ps[from..i]] + Chunks(ps[i..], m) && ps[i..i] == []
  {
    var rest := ps[from..];
    assert rest[m..] == ps[i..] && rest[..m] == ps[from..i];
  }

  /** The decoder's view of a payload. */
  function DecodePrograms(b: seq<byte>): seq<Program> {
    if |b| < 4 then []
    else DecodePrograms(b[..|b| - 4]) + [DecodeEntry(b[|b| - 4..])]
  }

  function DecodeEntry(e: seq<byte>): Program
    requires |e| == 4
  {
    Program(e[0] as int * 0x100 + e[1] as int, e[2] as int % 0x20 * 0x100 + e[3] as int)
  }

  /** The reserved bits in front of every PID are set. */
  predicate Reserved(b: seq<byte>) {
    |b| >= 4 ==> b[|b| - 2] / 0x20 == 7 && Reserved(b[..|b| - 4])
  }

  lemma EntryDecodes(p: Program)
    requires ProgramOk(p)
    ensures DecodeEntry(Entry(p)) == p && Entry(p)[2] / 0x20 == 7
  {
    ModAddMultiple(p.pid / 0x100, 0x20, 7);
  }

  lemma DecodeLast(b: seq<byte>, e: seq<byte>)
    requires |e| == 4
    ensures DecodePrograms(b + e) == DecodePrograms(b) + [DecodeEntry(e)]
    ensures Reserved(b + e) <==> e[2] / 0x20 == 7 && Reserved(b)
  {
    hide DecodeEntry;
    assert (b + e)[..|b + e| - 4] == b && (b + e)[|b + e| - 4..] == e;
  }

  lemma PayloadEnds(ps: seq<Program>)
    requires ps != []
    ensures Payload(ps) == Payload(ps[..|ps| - 1]) + Entry(ps[|ps| - 1])
  {
    hide Entry;
  }

  lemma {:induction false} PayloadDecodes(ps: seq<Program>)
    requires forall p :: p in ps ==> ProgramOk(p)
    ensures DecodePrograms(Payload(ps)) == ps && Reserved(Payload(ps))
  {
    if ps == [] {
      assert Payload(ps) == [];
    } else {
      hide Entry, DecodeEntry, DecodePrograms, Reserved, ProgramOk, Payload;
      var front, p := ps[..|ps| - 1], ps[|ps| - 1];
      PayloadEnds(ps);
      PayloadDecodes(front);
      EntryDecodes(p);
      DecodeLast(Payload(front), Entry(p));
    }
  }

  /** What a receiver accepts as section `k` of a table of `n`, with the same header in all of them. */
  predicate SectionFits(s: seq<byte>, k: nat, n: nat, tsId: nat, version: nat, current: bool) {
    && SectionOk(s, 0) && SectionNumber(s) == k && LastSection(s) == n - 1
    && Extension(s) == tsId && Version(s) == version && CurrentNext(s) == current
    && |PayloadOf(s)| % 4 == 0 && Reserved(PayloadOf(s)) && s[1] / 0x40 % 2 == 0
  }

  /** Decodes sections `k` on of a table of `n`. */
  function DecodeFrom(ss: seq<seq<byte>>, k: nat, n: nat, tsId: nat, version: nat, current: bool): Option<seq<Program>>
    decreases |ss|
  {
    if ss == [] then Some([])
    else if !SectionFits(ss[0], k, n, tsId, version, current) then None
    else
      match DecodeFrom(ss[1..], k + 1, n, tsId, version, current)
      case None => None
      case Some(ps) => Some(DecodePrograms(PayloadOf(ss[0])) + ps)
  }

  function PatSections(tsId: nat, version: nat, current: bool, c: seq<seq<Program>>, k: nat, n: nat): seq<seq<byte>>
    requires n > 0
    decreases |c|
  {
    if c == [] then [] else [PatSection(tsId, version, current, c[0], k, n)] + PatSections(tsId, version, current, c[1..], k + 1, n)
  }

  /** A generated section is well formed: at most 1024 bytes, its length field is exact, its CRC checks, and every field
      decodes to what went in. */
  lemma SectionDecodes(tsId: nat, version: nat, current: bool, chunk: seq<Program>, k: nat, n: nat)
    requires tsId < 0x1_0000 && version < 0x20 && |chunk| <= 253 && k < n <= 256
    requires forall p :: p in chunk ==> ProgramOk(p)
    ensures var s := PatSection(tsId, version, current, chunk, k, n);
            SectionFits(s, k, n, tsId, version, current) && DecodePrograms(PayloadOf(s)) == chunk
  {
    hide SectionOk, Header, Protected, DecodePrograms, Reserved, Payload, Extension, Version, CurrentNext, SectionNumber, LastSection;
    HeaderDecodes(0, false, tsId, version, current, k % 0x100, (n - 1) % 0x100, Payload(chunk));
    PayloadDecodes(chunk);
    assert SectionOk(PatSection(tsId, version, current, chunk, k, n), 0);
    FourTimes(|chunk|);
  }

  lemma FourTimes(n: nat)
    ensures 4 * n % 4 == 0
  {
  }

  lemma {:induction false} TableDecodes(tsId: nat, version: nat, current: bool, c: seq<seq<Program>>, k: nat, n: nat)
    requires tsId < 0x1_0000 && version < 0x20 && n == k + |c| <= 256 && n > 0
    requires forall i {:trigger c[i]} :: 0 <= i < |c| ==> |c[i]| <= 253 && forall p :: p in c[i] ==> ProgramOk(p)
    ensures DecodeFrom(PatSections(tsId, version, current, c, k, n), k, n, tsId, version, current) == Some(Joined(c))
    decreases |c|
  {
    hide PatSection, SectionFits, DecodePrograms, PayloadOf;
    var ss := PatSections(tsId, version, current, c, k, n);
    if c != [] {
      SectionDecodes(tsId, version, current, c[0], k, n);
      TableDecodes(tsId, version, current, c[1..], k + 1, n);
      assert ss[1..] == PatSections(tsId, version, current, c[1..], k + 1, n);
    }
  }

  lemma {:induction false} JoinedHolds(c: seq<seq<Program>>, i: nat)
    requires i < |c|
    ensures forall p :: p in c[i] ==> p in Joined(c)
  {
    if i > 0 {
      JoinedHolds(c[1..], i - 1);
    }
  }

  /** Decoding the generated sections yields the program list, in order, for any limit per section. */
  lemma PatRoundTrip(tsId: nat, version: nat, current: bool, ps: seq<Program>, m: nat)
    requires tsId < 0x1_0000 && version < 0x20 && 0 < m <= 253 && |Chunks(ps, m)| <= 256
    requires forall p :: p in ps ==> ProgramOk(p)
    ensures var c := Chunks(ps, m);
            DecodeFrom(PatSections(tsId, version, current, c, 0, |c|), 0, |c|, tsId, version, current) == Some(ps)
  {
    hide PatSections, DecodeFrom;
    var c := Chunks(ps, m);
    ChunksJoin(ps, m);
    forall i | 0 <= i < |c| ensures |c[i]| <= 253 && forall p :: p in c[i] ==> ProgramOk(p) {
      JoinedHolds(c, i);
    }
    TableDecodes(tsId, version, current, c, 0, |c|);
  }
}
