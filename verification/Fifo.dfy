/** The byte FIFO of src/buffer.cpp: a ring buffer whose indices may rest at its size, with room for one byte less. */
module Fifo {
  import opened Bytes

  /** Number of bytes between the indices of a ring of `n` bytes. */
  function Used(n: nat, w: nat, r: nat): (k: nat)
    requires w <= n && r <= n
  {
    if w >= r then w - r else n - r + w
  }

  /** The ring address of byte `k` behind index `p`. */
  function Slot(n: nat, p: nat, k: nat): (a: nat)
    requires p <= n && k < n
    ensures a < n
  {
    if p + k < n then p + k else p + k - n
  }

  /** The index `k` bytes behind `p`; it rests at `n` when it gets there exactly. */
  function Forward(n: nat, p: nat, k: nat): (q: nat)
    requires p <= n && k <= n
    ensures q <= n
  {
    if p + k <= n then p + k else p + k - n
  }

  /** The bytes in the ring, oldest first. */
  function Held(mem: seq<byte>, w: nat, r: nat): (c: seq<byte>)
    requires w <= |mem| && r <= |mem|
    ensures |c| == Used(|mem|, w, r)
  {
    if w >= r then mem[r..w] else mem[r..] + mem[..w]
  }

  lemma HeldAt(mem: seq<byte>, w: nat, r: nat, k: nat)
    requires w <= |mem| && r <= |mem| && k < Used(|mem|, w, r)
    ensures k < |mem| && Held(mem, w, r)[k] == mem[Slot(|mem|, r, k)]
  {
  }

  /** Moving the write index over `k` free bytes appends what stands there. */
  lemma HeldGrows(mem: seq<byte>, w: nat, r: nat, d: seq<byte>)
    requires w <= |mem| && r <= |mem| && Used(|mem|, w, r) + |d| < |mem|
    requires forall k {:trigger d[k]} :: 0 <= k < |d| ==> mem[Slot(|mem|, w, k)] == d[k]
    ensures Used(|mem|, Forward(|mem|, w, |d|), r) == Used(|mem|, w, r) + |d|
    ensures Held(mem, Forward(|mem|, w, |d|), r) == Held(mem, w, r) + d
  {
    var n, c := |mem|, Held(mem, w, r);
    var w' := Forward(n, w, |d|);
    var c' := Held(mem, w', r);
    assert |c'| == |c| + |d|;
    forall k | 0 <= k < |c'| ensures c'[k] == (c + d)[k] {
      HeldAt(mem, w', r, k);
      if k < |c| {
        HeldAt(mem, w, r, k);
      } else {
        assert Slot(n, r, k) == Slot(n, w, k - |c|);
        assert d[k - |c|] == mem[Slot(n, w, k - |c|)];
      }
    }
  }

  /** Moving the read index over `k` held bytes drops them. */
  lemma HeldShrinks(mem: seq<byte>, w: nat, r: nat, k: nat)
    requires w <= |mem| && r <= |mem| && k <= Used(|mem|, w, r) < |mem|
    ensures Used(|mem|, w, Forward(|mem|, r, k)) == Used(|mem|, w, r) - k
    ensures Held(mem, w, Forward(|mem|, r, k)) == Held(mem, w, r)[k..]
    ensures Held(mem, w, r) == Held(mem, w, r)[..k] + Held(mem, w, Forward(|mem|, r, k))
  {
    var r' := Forward(|mem|, r, k);
    var c, c' := Held(mem, w, r), Held(mem, w, r');
    forall i | 0 <= i < |c'| ensures c'[i] == c[k..][i] {
      HeldAt(mem, w, r', i);
      HeldAt(mem, w, r, k + i);
    }
  }

  /** The first `k` held bytes, in one or two pieces. */
  lemma HeldFront(mem: seq<byte>, w: nat, r: nat, k: nat)
    requires w <= |mem| && r <= |mem| && k <= Used(|mem|, w, r)
    ensures if r + k <= |mem| then Held(mem, w, r)[..k] == mem[r..r + k]
            else Held(mem, w, r)[..k] == mem[r..] + mem[..k - (|mem| - r)]
  {
  }

  /** A free address is not one of the held bytes' addresses. */
  lemma FreeApart(n: nat, w: nat, r: nat, k: nat, j: nat)
    requires w <= n && r <= n && k < Used(n, w, r) && Used(n, w, r) + j < n
    ensures Slot(n, r, k) != Slot(n, w, j)
  {
  }

  /** Changing a free byte leaves the held ones. */
  lemma HeldUntouched(mem: seq<byte>, w: nat, r: nat, j: nat, b: byte)
    requires w <= |mem| && r <= |mem| && Used(|mem|, w, r) + j < |mem|
    ensures Held(mem[Slot(|mem|, w, j) := b], w, r) == Held(mem, w, r)
  {
    var mem' := mem[Slot(|mem|, w, j) := b];
    forall k | 0 <= k < Used(|mem|, w, r) ensures Held(mem', w, r)[k] == Held(mem, w, r)[k] {
      HeldAt(mem, w, r, k);
      HeldAt(mem', w, r, k);
      FreeApart(|mem|, w, r, k, j);
    }
  }

  class ByteFifo {
    const buffer: array<byte>
    var writep: nat
    var readp: nat

    ghost predicate Valid()
      reads this
      ensures Valid() ==> writep <= buffer.Length && readp <= buffer.Length && Used(buffer.Length, writep, readp) < buffer.Length
    {
      writep <= buffer.Length && readp <= buffer.Length && Used(buffer.Length, writep, readp) < buffer.Length
    }

    ghost function Contents(): (c: seq<byte>)
      reads this, buffer
      requires Valid()
      ensures |c| == Used(buffer.Length, writep, readp)
    {
      Held(buffer[..], writep, readp)
    }

    constructor (size: nat)
      requires size > 0
      ensures Valid() && fresh(buffer) && buffer.Length == size && Contents() == []
    {
      buffer := new byte[size];
      writep, readp := 0, 0;
    }

    /** Number of bytes held. */
    method Bsize() returns (k: nat)
      requires Valid()
      ensures k == |Contents()|
    {
      k := if writep >= readp then writep - readp else buffer.Length - readp + writep;
    }

    /** Number of bytes that still fit. */
    method Fsize() returns (k: nat)
      requires Valid()
      ensures k == buffer.Length - 1 - |Contents()|
    {
      var length := if writep >= readp then writep - readp else buffer.Length - readp + writep;
      k := buffer.Length - length - 1;
    }

    /** Copies `data` to consecutive addresses. */
    method CopyIn(at: nat, data: seq<byte>)
      requires at + |data| <= buffer.Length
      modifies buffer
      ensures buffer[..] == Patch(old(buffer[..]), at, data)
    {
      forall i | 0 <= i < |data| {
        buffer[at + i] := data[i];
      }
    }

    /** Appends all of `data`, or nothing if it is empty or would not leave a byte free. */
    method Put(data: seq<byte>) returns (k: nat)
      requires Valid()
      modifies this`writep, buffer
      ensures Valid()
      ensures k == if |data| < buffer.Length - |old(Contents())| then |data| else 0
      ensures Contents() == if k == 0 then old(Contents()) else old(Contents()) + data
    {
      if |data| == 0 { return 0; }
      var size := |data|;
      var length := if writep >= readp then writep - readp else buffer.Length - readp + writep;
      var remsize := buffer.Length - length;
      if remsize <= size { return 0; }
      ghost var mem, w := buffer[..], writep;
      if writep >= readp {
        if buffer.Length - writep >= size {
          CopyIn(writep, data);
          writep := writep + size;
        } else {
          length := buffer.Length - writep;
          remsize := size - length;
          CopyIn(writep, data[..length]);
          CopyIn(0, data[length..]);
          writep := remsize;
        }
      } else {
        CopyIn(writep, data);
        writep := writep + size;
      }
      PutLanded(mem, buffer[..], w, readp, data);
      return size;
    }

    /** Takes exactly `size` bytes off the front, or nothing. */
    method Get(size: nat) returns (k: nat, data: seq<byte>)
      requires Valid()
      modifies this`readp
      ensures Valid()
      ensures k == |data| == if size <= |old(Contents())| then size else 0
      ensures old(Contents()) == data + Contents()
    {
      if size == 0 { return 0, []; }
      var length := if writep >= readp then writep - readp else buffer.Length - readp + writep;
      if length < size { return 0, []; }
      ghost var mem, w, r := buffer[..], writep, readp;
      HeldShrinks(mem, w, r, size);
      HeldFront(mem, w, r, size);
      ghost var c := Held(mem, w, r);
      hide Held, Used;
      if writep >= readp {
        data := buffer[readp..readp + size];
        readp := readp + size;
      } else {
        length := buffer.Length - readp;
        if length >= size {
          data := buffer[readp..readp + size];
          readp := readp + size;
        } else {
          var remsize := size - length;
          data := buffer[readp..] + buffer[..remsize];
          readp := remsize;
        }
      }
      assert buffer[..] == mem && data == c[..size];
      return size, data;
    }

    /** Drops exactly `size` bytes, or nothing. */
    method Skip(size: nat) returns (k: nat)
      requires Valid()
      modifies this`readp
      ensures Valid()
      ensures k == if size <= |old(Contents())| then size else 0
      ensures Contents() == old(Contents())[k..]
    {
      if size == 0 { return 0; }
      var length := if writep >= readp then writep - readp else buffer.Length - readp + writep;
      if length < size { return 0; }
      HeldShrinks(buffer[..], writep, readp, size);
      if writep >= readp {
        readp := readp + size;
      } else {
        length := buffer.Length - readp;
        if length >= size {
          readp := readp + size;
        } else {
          readp := size - length;
        }
      }
      return size;
    }
  }

  /** The copies of a Put, in one or two pieces, append its data. */
  lemma PutLanded(mem: seq<byte>, mem': seq<byte>, w: nat, r: nat, d: seq<byte>)
    requires w <= |mem| && r <= |mem| && Used(|mem|, w, r) + |d| < |mem|
    requires if w + |d| <= |mem| then mem' == Patch(mem, w, d)
             else mem' == Patch(Patch(mem, w, d[..|mem| - w]), 0, d[|mem| - w..])
    ensures Held(mem', Forward(|mem|, w, |d|), r) == Held(mem, w, r) + d
  {
    hide Patch, Held;
    var n := |mem|;
    if w + |d| <= n {
      PatchBytes(mem, w, d);
    } else {
      PatchBytes(mem, w, d[..n - w]);
      PatchBytes(Patch(mem, w, d[..n - w]), 0, d[n - w..]);
    }
    forall k | 0 <= k < |d| ensures mem'[Slot(n, w, k)] == d[k] {
    }
    forall k | 0 <= k < Used(n, w, r) ensures Held(mem', w, r)[k] == Held(mem, w, r)[k] {
      HeldAt(mem, w, r, k);
      HeldAt(mem', w, r, k);
    }
    assert Held(mem', w, r) == Held(mem, w, r);
    HeldGrows(mem', w, r, d);
  }
}
