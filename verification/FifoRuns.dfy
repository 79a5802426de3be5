/** Two threads on one FIFO without a lock: every interleaving of one producer's and one consumer's steps.
    A call reads the other side's index, copies byte by byte, and then publishes its own index. */
module FifoRuns {
  import opened Bytes
  import opened Fifo

  datatype Producer = PIdle | Filling(data: seq<byte>, r0: nat, stored: nat)

  datatype Consumer = CIdle | Draining(want: nat, w0: nat, out: seq<byte>)

  datatype Sys = Sys(
    mem: seq<byte>,
    writep: nat,
    readp: nat,
    prod: Producer,
    cons: Consumer,
    sent: seq<byte>,   // bytes of all Puts that succeeded
    got: seq<byte>     // bytes of all Gets that succeeded
  )

  datatype Action = BeginPut(data: seq<byte>) | RefusePut(data: seq<byte>) | StoreByte | EndPut
    | BeginGet(want: nat) | RefuseGet(want: nat) | LoadByte | EndGet

  /** The address that Put copies byte `k` to, from the indices it saw. */
  function InAddr(n: nat, w: nat, r0: nat, size: nat, k: nat): int
    requires w <= n
  {
    if w >= r0 && n - w < size && k >= n - w then k - (n - w) else w + k
  }

  /** The address that Get copies byte `k` from. */
  function OutAddr(n: nat, w0: nat, r: nat, size: nat, k: nat): int
    requires r <= n
  {
    if w0 < r && n - r < size && k >= n - r then k - (n - r) else r + k
  }

  function NewWrite(n: nat, w: nat, r0: nat, size: nat): int
    requires w <= n
  {
    if w >= r0 && n - w < size then size - (n - w) else w + size
  }

  function NewRead(n: nat, w0: nat, r: nat, size: nat): int
    requires r <= n
  {
    if w0 < r && n - r < size then size - (n - r) else r + size
  }

  ghost predicate Init(s: Sys) {
    |s.mem| > 0 && s.writep == s.readp == 0 && s.prod == PIdle && s.cons == CIdle && s.sent == s.got == []
  }

  predicate Admits(n: nat, w: nat, r: nat, size: nat)
    requires w <= n && r <= n
  {
    0 < size < n - Used(n, w, r)
  }

  predicate Holds(n: nat, w: nat, r: nat, size: nat)
    requires w <= n && r <= n
  {
    0 < size <= Used(n, w, r)
  }

  /** One atomic step of either thread. */
  ghost predicate Step(s: Sys, a: Action, s': Sys)
    requires s.writep <= |s.mem| && s.readp <= |s.mem|
  {
    var n := |s.mem|;
    match a
    case BeginPut(d) => s.prod.PIdle? && Admits(n, s.writep, s.readp, |d|) && s' == s.(prod := Filling(d, s.readp, 0))
    case RefusePut(d) => s.prod.PIdle? && !Admits(n, s.writep, s.readp, |d|) && s' == s
    case StoreByte =>
      && s.prod.Filling? && s.prod.stored < |s.prod.data|
      && var at := InAddr(n, s.writep, s.prod.r0, |s.prod.data|, s.prod.stored);
         0 <= at < n && s' == s.(mem := s.mem[at := s.prod.data[s.prod.stored]], prod := s.prod.(stored := s.prod.stored + 1))
    case EndPut =>
      && s.prod.Filling? && s.prod.stored == |s.prod.data|
      && var w' := NewWrite(n, s.writep, s.prod.r0, |s.prod.data|);
         0 <= w' && s' == s.(writep := w', prod := PIdle, sent := s.sent + s.prod.data)
    case BeginGet(k) => s.cons.CIdle? && Holds(n, s.writep, s.readp, k) && s' == s.(cons := Draining(k, s.writep, []))
    case RefuseGet(k) => s.cons.CIdle? && !Holds(n, s.writep, s.readp, k) && s' == s
    case LoadByte =>
      && s.cons.Draining? && |s.cons.out| < s.cons.want
      && var at := OutAddr(n, s.cons.w0, s.readp, s.cons.want, |s.cons.out|);
         0 <= at < n && s' == s.(cons := s.cons.(out := s.cons.out + [s.mem[at]]))
    case EndGet =>
      && s.cons.Draining? && |s.cons.out| == s.cons.want
      && var r' := NewRead(n, s.cons.w0, s.readp, s.cons.want);
         0 <= r' && s' == s.(readp := r', cons := CIdle, got := s.got + s.cons.out)
  }

  ghost predicate Indices(s: Sys) {
    s.writep <= |s.mem| && s.readp <= |s.mem| && Used(|s.mem|, s.writep, s.readp) < |s.mem|
  }

  /** The queue that the two threads share: what is published and not yet given up. */
  ghost function Queue(s: Sys): seq<byte>
    requires Indices(s)
  {
    Held(s.mem, s.writep, s.readp)
  }

  /** The producer saw no more room than there is now, and has stored a front of its data in free bytes. */
  ghost predicate ProducerOk(s: Sys)
    requires Indices(s)
  {
    s.prod.Filling? ==>
      && 0 < |s.prod.data| < |s.mem| - Used(|s.mem|, s.writep, s.readp) && s.prod.stored <= |s.prod.data|
      && s.prod.r0 <= |s.mem| && |s.prod.data| < |s.mem| - Used(|s.mem|, s.writep, s.prod.r0)
      && forall k {:trigger s.prod.data[k]} :: 0 <= k < s.prod.stored ==> s.mem[Slot(|s.mem|, s.writep, k)] == s.prod.data[k]
  }

  /** The consumer saw no more bytes than there are now, and has loaded a front of them. */
  ghost predicate ConsumerOk(s: Sys)
    requires Indices(s)
  {
    s.cons.Draining? ==>
      && 0 < s.cons.want <= Used(|s.mem|, s.writep, s.readp) && |s.cons.out| <= s.cons.want
      && s.cons.w0 <= |s.mem| && s.cons.want <= Used(|s.mem|, s.cons.w0, s.readp) < |s.mem|
      && s.cons.out == Queue(s)[..|s.cons.out|]
  }

  ghost predicate Inv(s: Sys) {
    Indices(s) && ProducerOk(s) && ConsumerOk(s) && s.sent == s.got + Queue(s)
  }

  /** Put's case split reaches the next free byte and the next index in every case. */
  lemma PutPlaces(n: nat, w: nat, r0: nat, size: nat)
    requires w <= n && r0 <= n && Admits(n, w, r0, size)
    ensures forall k: nat {:trigger InAddr(n, w, r0, size, k)} :: k < size ==> InAddr(n, w, r0, size, k) == Slot(n, w, k)
    ensures NewWrite(n, w, r0, size) == Forward(n, w, size)
  {
  }

  lemma GetPlaces(n: nat, w0: nat, r: nat, size: nat)
    requires w0 <= n && r <= n && Holds(n, w0, r, size) && Used(n, w0, r) < n
    ensures forall k: nat {:trigger OutAddr(n, w0, r, size, k)} :: k < size ==> OutAddr(n, w0, r, size, k) == Slot(n, r, k)
    ensures NewRead(n, w0, r, size) == Forward(n, r, size)
  {
  }

  /** The address the producer writes next is none of those the consumer reads. */
  lemma RegionsApart(s: Sys, i: nat, j: nat)
    requires Inv(s) && s.prod.Filling? && s.cons.Draining? && i < |s.prod.data| && j < s.cons.want
    ensures InAddr(|s.mem|, s.writep, s.prod.r0, |s.prod.data|, i) != OutAddr(|s.mem|, s.cons.w0, s.readp, s.cons.want, j)
  {
    PutPlaces(|s.mem|, s.writep, s.prod.r0, |s.prod.data|);
    GetPlaces(|s.mem|, s.cons.w0, s.readp, s.cons.want);
    FreeApart(|s.mem|, s.writep, s.readp, j, i);
  }

  lemma DifferentSlots(n: nat, p: nat, i: nat, j: nat)
    requires p <= n && i < n && j < n && i != j
    ensures Slot(n, p, i) != Slot(n, p, j)
  {
  }

  lemma StoreKeeps(s: Sys, s': Sys)
    requires Inv(s) && Step(s, StoreByte, s')
    ensures Inv(s') && Queue(s') == Queue(s)
  {
    var n, p := |s.mem|, s.prod;
    PutPlaces(n, s.writep, p.r0, |p.data|);
    HeldUntouched(s.mem, s.writep, s.readp, p.stored, p.data[p.stored]);
    forall k | 0 <= k < p.stored + 1 ensures s'.mem[Slot(n, s.writep, k)] == p.data[k] {
      if k < p.stored { DifferentSlots(n, s.writep, k, p.stored); }
    }
  }

  lemma EndPutKeeps(s: Sys, s': Sys)
    requires Inv(s) && Step(s, EndPut, s')
    ensures Inv(s') && Queue(s') == Queue(s) + s.prod.data
  {
    hide Held, Used, Forward, NewWrite, Slot;
    PutPlaces(|s.mem|, s.writep, s.prod.r0, |s.prod.data|);
    HeldGrows(s.mem, s.writep, s.readp, s.prod.data);
    var c := s.cons;
    if c.Draining? {
      assert Queue(s')[..|c.out|] == Queue(s)[..|c.out|];
    }
  }

  lemma LoadKeeps(s: Sys, s': Sys)
    requires Inv(s) && Step(s, LoadByte, s')
    ensures Inv(s') && Queue(s') == Queue(s)
  {
    var c := s.cons;
    GetPlaces(|s.mem|, c.w0, s.readp, c.want);
    HeldAt(s.mem, s.writep, s.readp, |c.out|);
    assert Queue(s)[..|c.out| + 1] == Queue(s)[..|c.out|] + [Queue(s)[|c.out|]];
  }

  lemma EndGetKeeps(s: Sys, s': Sys)
    requires Inv(s) && Step(s, EndGet, s')
    ensures Inv(s') && Queue(s) == s.cons.out + Queue(s')
  {
    hide Held, Used, Forward, NewRead, Slot;
    GetPlaces(|s.mem|, s.cons.w0, s.readp, s.cons.want);
    HeldShrinks(s.mem, s.writep, s.readp, s.cons.want);
  }

  /** Every step keeps the invariant and, seen on the shared queue, is nothing, one whole Put or one whole Get; a Put is
      refused exactly when it is empty or would not leave a byte free, a Get when that many bytes are not there. */
  lemma StepRefines(s: Sys, a: Action, s': Sys)
    requires Inv(s) && Step(s, a, s')
    ensures Inv(s') && |s'.mem| == |s.mem|
    ensures match a
            case EndPut => Queue(s') == Queue(s) + s.prod.data && s'.sent == s.sent + s.prod.data && s'.got == s.got
            case EndGet => Queue(s) == s.cons.out + Queue(s') && s'.got == s.got + s.cons.out && s'.sent == s.sent
            case _ => Queue(s') == Queue(s) && s'.sent == s.sent && s'.got == s.got
    ensures a.BeginPut? ==> 0 < |a.data| < |s.mem| - |Queue(s)|
    ensures a.RefusePut? ==> |a.data| == 0 || |a.data| >= |s.mem| - |Queue(s)|
    ensures a.BeginGet? ==> 0 < a.want <= |Queue(s)|
    ensures a.RefuseGet? ==> a.want == 0 || a.want > |Queue(s)|
  {
    match a
    case StoreByte => StoreKeeps(s, s');
    case EndPut => EndPutKeeps(s, s');
    case LoadByte => LoadKeeps(s, s');
    case EndGet => EndGetKeeps(s, s');
    case _ =>
  }

  /** A call that was begun can always go on: the addresses it computes lie in the buffer. */
  lemma NeverStuck(s: Sys)
    requires Inv(s)
    ensures s.prod.Filling? ==> exists a, s' :: (a == StoreByte || a == EndPut) && Step(s, a, s')
    ensures s.cons.Draining? ==> exists a, s' :: (a == LoadByte || a == EndGet) && Step(s, a, s')
  {
    var n := |s.mem|;
    if s.prod.Filling? {
      var p := s.prod;
      PutPlaces(n, s.writep, p.r0, |p.data|);
      if p.stored < |p.data| {
        var at := InAddr(n, s.writep, p.r0, |p.data|, p.stored);
        assert Step(s, StoreByte, s.(mem := s.mem[at := p.data[p.stored]], prod := p.(stored := p.stored + 1)));
      } else {
        assert Step(s, EndPut, s.(writep := NewWrite(n, s.writep, p.r0, |p.data|), prod := PIdle, sent := s.sent + p.data));
      }
    }
    if s.cons.Draining? {
      var c := s.cons;
      GetPlaces(n, c.w0, s.readp, c.want);
      if |c.out| < c.want {
        var at := OutAddr(n, c.w0, s.readp, c.want, |c.out|);
        assert Step(s, LoadByte, s.(cons := c.(out := c.out + [s.mem[at]])));
      } else {
        assert Step(s, EndGet, s.(readp := NewRead(n, c.w0, s.readp, c.want), cons := CIdle, got := s.got + c.out));
      }
    }
  }

  ghost predicate IsRun(run: seq<Sys>, acts: seq<Action>) {
    && |run| == |acts| + 1 && Init(run[0])
    && forall i {:trigger acts[i]} :: 0 <= i < |acts| ==>
         run[i].writep <= |run[i].mem| && run[i].readp <= |run[i].mem| && Step(run[i], acts[i], run[i + 1])
  }

  lemma {:induction false} RunKeeps(run: seq<Sys>, acts: seq<Action>, i: nat)
    requires IsRun(run, acts) && i < |run|
    ensures Inv(run[i]) && |run[i].mem| == |run[0].mem|
  {
    if i > 0 {
      RunKeeps(run, acts, i - 1);
      StepRefines(run[i - 1], acts[i - 1], run[i]);
    }
  }

  /** In every run, at every moment, the bytes taken out are a prefix of the bytes put in, and what is between them is the
      queue, never more than the ring's size less one. */
  lemma FifoOrder(run: seq<Sys>, acts: seq<Action>, i: nat)
    requires IsRun(run, acts) && i < |run|
    ensures Indices(run[i]) && run[i].sent == run[i].got + Queue(run[i]) && run[i].got <= run[i].sent
    ensures |run[i].sent| - |run[i].got| <= |run[0].mem| - 1
  {
    RunKeeps(run, acts, i);
  }
}
