/** The message queue between the callers and the worker thread (src/ramdisk.cpp): a ring of 64 slots, one always free. */
module MsgRing {

  /** The messages waiting in a ring, oldest first. */
  function Pending<T>(items: seq<T>, head: nat, tail: nat): (p: seq<T>)
    requires |items| == 64 && head < 64 && tail < 64
    ensures |p| == if head <= tail then tail - head else 64 - head + tail
  {
    if head <= tail then items[head..tail] else items[head..] + items[..tail]
  }

  function Next(i: nat): (j: nat)
    requires i < 64
    ensures j < 64 && j == if i == 63 then 0 else i + 1
  {
    (i + 1) % 64
  }

  /** Storing in the free slot and moving the tail appends. */
  lemma PendingGrows<T>(items: seq<T>, head: nat, tail: nat, m: T)
    requires |items| == 64 && head < 64 && tail < 64 && Next(tail) != head
    ensures Pending(items[tail := m], head, tail) == Pending(items, head, tail)
    ensures Pending(items[tail := m], head, Next(tail)) == Pending(items, head, tail) + [m]
  {
  }

  /** Moving the head drops the oldest message. */
  lemma PendingShrinks<T>(items: seq<T>, head: nat, tail: nat)
    requires |items| == 64 && head < 64 && tail < 64 && head != tail
    ensures Pending(items, head, tail) == [items[head]] + Pending(items, Next(head), tail)
  {
  }

  class MsgQueue<T(0)> {
    const items: array<T>
    var head: nat
    var tail: nat

    ghost predicate Valid()
      reads this
    {
      items.Length == 64 && head < 64 && tail < 64
    }

    ghost function Contents(): seq<T>
      reads this, items
      requires Valid()
    {
      Pending(items[..], head, tail)
    }

    constructor ()
      ensures Valid() && fresh(items) && Contents() == []
    {
      items := new T[64];
      head, tail := 0, 0;
    }

    /** Appends `m`, or refuses it when 63 messages wait. */
    method SendMsg(m: T) returns (ok: bool)
      requires Valid()
      modifies this`tail, items
      ensures Valid() && ok == (|old(Contents())| < 63)
      ensures Contents() == if ok then old(Contents()) + [m] else old(Contents())
    {
      if (tail + 1) % 64 == head { return false; }
      PendingGrows(items[..], head, tail, m);
      items[tail] := m;
      tail := (tail + 1) % 64;
      return true;
    }

    /** Takes the oldest message, if there is one. */
    method RecvMsg(m0: T) returns (ok: bool, m: T)
      requires Valid()
      modifies this`head
      ensures Valid() && ok == (old(Contents()) != [])
      ensures if ok then old(Contents()) == [m] + Contents() else Contents() == old(Contents()) && m == m0
    {
      if head % 64 == tail { return false, m0; }
      PendingShrinks(items[..], head, tail);
      m := items[head];
      head := (head + 1) % 64;
      return true, m;
    }
  }

  datatype Slot<T> = Nothing | Holding(m: T)

  /** The ring while a sender, alone under the lock, and the worker, without it, are inside their calls: each copies a
      message in one step and moves its index in the next. */
  datatype Ring<T> = Ring(
    items: seq<T>,
    head: nat,
    tail: nat,
    storing: Slot<T>,
    loading: Slot<T>,
    sent: seq<T>,
    received: seq<T>
  )

  datatype RingAction<T> = Refuse(m: T) | Store(m: T) | MoveTail | Load | MoveHead

  ghost predicate RingStep<T>(s: Ring<T>, a: RingAction<T>, s': Ring<T>)
    requires |s.items| == 64 && s.head < 64 && s.tail < 64
  {
    match a
    case Refuse(_) => s.storing.Nothing? && Next(s.tail) == s.head && s' == s
    case Store(m) => s.storing.Nothing? && Next(s.tail) != s.head
        && s' == s.(items := s.items[s.tail := m], storing := Holding(m))
    case MoveTail => s.storing.Holding? && s' == s.(tail := Next(s.tail), storing := Nothing, sent := s.sent + [s.storing.m])
    case Load => s.loading.Nothing? && s.head != s.tail && s' == s.(loading := Holding(s.items[s.head]))
    case MoveHead => s.loading.Holding? && s' == s.(head := Next(s.head), loading := Nothing, received := s.received + [s.loading.m])
  }

  ghost predicate RingOk<T>(s: Ring<T>) {
    && |s.items| == 64 && s.head < 64 && s.tail < 64
    && s.sent == s.received + Pending(s.items, s.head, s.tail)
    && (s.storing.Holding? ==> Next(s.tail) != s.head && s.items[s.tail] == s.storing.m)
    && (s.loading.Holding? ==> s.head != s.tail && s.items[s.head] == s.loading.m)
  }

  /** Whatever the interleaving, messages are received in the order in which they were accepted, none is lost, none
      twice, and a send is refused only while 63 wait. */
  lemma RingKeeps<T>(s: Ring<T>, a: RingAction<T>, s': Ring<T>)
    requires RingOk(s) && RingStep(s, a, s')
    ensures RingOk(s') && s'.received <= s'.sent
    ensures a.Refuse? ==> |s.sent| - |s.received| == 63
  {
    hide Pending;
    match a
    case Refuse(_) => FullRing(s);
    case Store(m) => StoreKeeps(s, m);
    case MoveTail => TailKeeps(s);
    case Load =>
    case MoveHead => PendingShrinks(s.items, s.head, s.tail);
  }

  lemma FullRing<T>(s: Ring<T>)
    requires RingOk(s) && Next(s.tail) == s.head
    ensures |s.sent| - |s.received| == 63
  {
  }

  lemma StoreKeeps<T>(s: Ring<T>, m: T)
    requires RingOk(s) && Next(s.tail) != s.head
    ensures RingOk(s.(items := s.items[s.tail := m], storing := Holding(m)))
  {
    hide Pending;
    PendingGrows(s.items, s.head, s.tail, m);
  }

  lemma TailKeeps<T>(s: Ring<T>)
    requires RingOk(s) && s.storing.Holding?
    ensures RingOk(s.(tail := Next(s.tail), storing := Nothing, sent := s.sent + [s.storing.m]))
  {
    hide Pending;
    PendingGrows(s.items, s.head, s.tail, s.storing.m);
    assert s.items[s.tail := s.storing.m] == s.items;
  }

  ghost predicate IsRun<T>(run: seq<Ring<T>>, acts: seq<RingAction<T>>) {
    && |run| == |acts| + 1
    && |run[0].items| == 64 && run[0].head == run[0].tail == 0 && run[0].storing.Nothing? && run[0].loading.Nothing?
    && run[0].sent == run[0].received == []
    && forall i {:trigger acts[i]} :: 0 <= i < |acts| ==>
         |run[i].items| == 64 && run[i].head < 64 && run[i].tail < 64 && RingStep(run[i], acts[i], run[i + 1])
  }

  lemma {:induction false} ReceivedInOrder<T>(run: seq<Ring<T>>, acts: seq<RingAction<T>>, i: nat)
    requires IsRun(run, acts) && i < |run|
    ensures RingOk(run[i]) && run[i].received <= run[i].sent && |run[i].sent| - |run[i].received| <= 63
  {
    if i > 0 {
      ReceivedInOrder(run, acts, i - 1);
      RingKeeps(run[i - 1], acts[i - 1], run[i]);
    }
  }
}
