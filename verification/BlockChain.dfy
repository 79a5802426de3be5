/** Chains of blocks linked in place (src/buffer.cpp). */
module BlockChain {
  import opened Bytes

  class Block {
    const bytes: seq<byte>
    var next: Block?

    constructor (bytes: seq<byte>)
      ensures this.bytes == bytes && next == null
    {
      this.bytes, next := bytes, null;
    }
  }

  /** `bs` is a list linked through `next`, without repetition. */
  ghost predicate Linked(bs: seq<Block>)
    reads bs
  {
    Different(bs) && forall i {:trigger bs[i]} :: 0 <= i < |bs| ==> bs[i].next == if i + 1 < |bs| then bs[i + 1] else null
  }

  ghost predicate Different(bs: seq<Block>) {
    forall i, j {:trigger bs[i], bs[j]} :: 0 <= i < j < |bs| ==> bs[i] != bs[j]
  }

  lemma DifferentJoin(a: seq<Block>, b: seq<Block>)
    requires Different(a) && Different(b) && forall x {:trigger x in b} :: x in b ==> x !in a
    ensures Different(a + b)
    ensures forall i {:trigger a[i]} :: 0 <= i < |a| ==> a[i] !in b
    ensures a != [] ==> forall i {:trigger b[i]} :: 0 <= i < |b| ==> b[i] != a[|a| - 1]
    ensures forall i {:trigger a[i]} :: 0 <= i < |a| - 1 ==> a[i] != a[|a| - 1]
  {
    assert forall i :: 0 <= i < |b| ==> b[i] in b;
    assert forall i :: 0 <= i < |a| ==> a[i] in a;
  }

  /** Links the list that starts at `b` behind the block `l`. */
  method Join(l: Block, b: Block, ghost a: seq<Block>, ghost bs: seq<Block>)
    requires Linked(a) && Linked(bs) && a != [] && l == a[|a| - 1] && bs != [] && b == bs[0]
    requires forall x {:trigger x in bs} :: x in bs ==> x !in a
    modifies l`next
    ensures Linked(a + bs)
  {
    DifferentJoin(a, bs);
    hide Different;
    l.next := b;
  }

  lemma Ends(a: seq<Block>, b: seq<Block>)
    requires b != []
    ensures a + b != [] && (a + b)[0] == (if a == [] then b[0] else a[0]) && (a + b)[|a + b| - 1] == b[|b| - 1]
    ensures a == [] ==> a + b == b
  {
  }

  function BytesOf(bs: seq<Block>): (c: seq<seq<byte>>)
    ensures |c| == |bs|
  {
    seq(|bs|, i requires 0 <= i < |bs| => bs[i].bytes)
  }

  class BufferChain {
    var depth: nat
    var first: Block?
    var last: Block?
    ghost var items: seq<Block>

    ghost predicate Valid()
      reads this, items
    {
      && Linked(items) && depth == |items|
      && first == (if items == [] then null else items[0])
      && last == (if items == [] then null else items[|items| - 1])
    }

    ghost function Contents(): (c: seq<seq<byte>>)
      reads this
    {
      BytesOf(items)
    }

    constructor ()
      ensures Valid() && items == []
    {
      depth, first, last, items := 0, null, null, [];
    }

    /** Follows a list to its last block, counting. */
    method Walk(b: Block, ghost bs: seq<Block>) returns (p: Block, n: nat)
      requires bs != [] && bs[0] == b && Linked(bs)
      ensures p == bs[|bs| - 1] && n == |bs|
    {
      p, n := b, 1;
      while p.next != null
        invariant 1 <= n <= |bs| && p == bs[n - 1]
        decreases |bs| - n
      {
        p := p.next;
        n := n + 1;
      }
    }

    /** Links a list behind the last block, or begins the chain with it. */
    method Hook(b: Block, ghost bs: seq<Block>)
      requires Linked(items) && bs != [] && bs[0] == b && Linked(bs) && forall x {:trigger x in bs} :: x in bs ==> x !in items
      requires (last == null <==> items == []) && (items != [] ==> last == items[|items| - 1])
      modifies this`first, last
      ensures Linked(items + bs) && first == if items == [] then b else old(first)
    {
      hide *;
      if last == null {
        first := b;
        assert items + bs == bs;
      } else {
        Join(last, b, items, bs);
      }
    }

    /** Records the new last block and the new number of blocks. */
    method Record(p: Block, n: nat, ghost joined: seq<Block>)
      requires Linked(joined) && joined != [] && first == joined[0] && p == joined[|joined| - 1] && depth + n == |joined|
      modifies this`depth, this`last, this`items
      ensures Valid() && items == joined && depth == old(depth) + n
    {
      hide *;
      depth, last, items := depth + n, p, joined;
      ValidIs();
    }

    /** Appends the list that starts at `b`, however long it is. */
    method Append(b: Block, ghost bs: seq<Block>)
      requires Valid() && bs != [] && bs[0] == b && Linked(bs)
      requires forall x {:trigger x in bs} :: x in bs ==> x !in items
      modifies this, last
      ensures Valid() && items == old(items) + bs && depth == old(depth) + |bs|
    {
      hide *;
      ValidMeans();
      var p, n := Walk(b, bs);
      Ends(items, bs);
      Hook(b, bs);
      Record(p, n, items + bs);
    }

    lemma ValidMeans()
      requires Valid()
      ensures Linked(items) && depth == |items| && (last == null <==> items == [])
      ensures items != [] ==> first == items[0] && last == items[|items| - 1]
    {
    }

    lemma ValidIs()
      requires Linked(items) && depth == |items| && items != [] && first == items[0] && last == items[|items| - 1]
      ensures Valid()
    {
    }

    lemma ContentsOf(was: seq<Block>, bs: seq<Block>)
      requires items == was + bs
      ensures Contents() == BytesOf(was) + BytesOf(bs)
    {
    }

    /** Takes the first block off. */
    method Get() returns (b: Block?)
      requires Valid()
      modifies this, first
      ensures Valid() && (b == null <==> old(items) == [])
      ensures b != null ==> b == old(items)[0] && b.next == null && items == old(items)[1..] && depth == old(depth) - 1
      ensures b == null ==> items == old(items)
    {
      b := first;
      if b != null {
        depth := depth - 1;
        first := b.next;
        if first == null {
          last := null;
        }
        b.next := null;
        items := items[1..];
      }
    }
  }
}
