/** The file server's FIFO and queue calls may be atomic: every step inside a FIFO call or a queue call is nothing to the
    server, or exactly one whole call of its model. */
module ServerCalls {
  import Fifo
  import FifoRuns
  import MsgRing
  import opened FileServer

  /** The handle's FIFO is what the two threads' ring holds. */
  ghost predicate FifoShown(f: Handle, s: FifoRuns.Sys) {
    FifoRuns.Inv(s) && f.fifo == FifoRuns.Queue(s) && f.cap == |s.mem|
  }

  lemma QueueLength(s: FifoRuns.Sys)
    requires FifoRuns.Indices(s)
    ensures |FifoRuns.Queue(s)| == Fifo.Used(|s.mem|, s.writep, s.readp)
  {
  }

  /** A Put takes effect when it publishes its index, and a Get likewise; other steps are invisible; refusals are those of
      the server's guards. */
  lemma FifoCallIsAtomic(f: Handle, s: FifoRuns.Sys, a: FifoRuns.Action, s': FifoRuns.Sys)
    requires FifoShown(f, s) && FifoRuns.Step(s, a, s')
    ensures match a
            case EndPut => PutFits(f, |s.prod.data|) && FifoShown(PutIn(f, s.prod.data), s')
            case EndGet => GetFits(f, |s.cons.out|) && s.cons.out == f.fifo[..|s.cons.out|]
                && FifoShown(GotOut(f, |s.cons.out|), s')
            case BeginPut(d) => PutFits(f, |d|) && FifoShown(f, s')
            case RefusePut(d) => !PutFits(f, |d|) && FifoShown(f, s')
            case BeginGet(n) => GetFits(f, n) && FifoShown(f, s')
            case RefuseGet(n) => !GetFits(f, n) && FifoShown(f, s')
            case _ => FifoShown(f, s')
  {
    hide FifoRuns.Queue, FifoRuns.InAddr, FifoRuns.OutAddr, FifoRuns.NewRead, FifoRuns.NewWrite;
    FifoRuns.StepRefines(s, a, s');
    QueueLength(s);
    QueueLength(s');
    if a.EndGet? {
      assert s.cons.out + FifoRuns.Queue(s') == f.fifo;
      assert f.fifo[|s.cons.out|..] == FifoRuns.Queue(s');
    }
  }

  /** The server's queue is what the ring holds. */
  ghost predicate QueueShown(q: seq<Msg>, s: MsgRing.Ring<Msg>) {
    MsgRing.RingOk(s) && q == MsgRing.Pending(s.items, s.head, s.tail)
  }

  /** A send takes effect when it moves the tail, a receive when it moves the head; a refusal is the server's. */
  lemma QueueCallIsAtomic(q: seq<Msg>, s: MsgRing.Ring<Msg>, a: MsgRing.RingAction<Msg>, s': MsgRing.Ring<Msg>)
    requires QueueShown(q, s) && MsgRing.RingStep(s, a, s')
    ensures match a
            case MoveTail => |q| < 63 && QueueShown(q + [s.storing.m], s')
            case MoveHead => q != [] && q[0] == s.loading.m && QueueShown(q[1..], s')
            case Refuse(_) => |q| == 63 && QueueShown(q, s')
            case _ => QueueShown(q, s')
  {
    hide MsgRing.Pending;
    MsgRing.RingKeeps(s, a, s');
    match a
    case Store(m) => MsgRing.PendingGrows(s.items, s.head, s.tail, m);
    case MoveTail =>
      MsgRing.PendingGrows(s.items, s.head, s.tail, s.storing.m);
      assert s.items[s.tail := s.storing.m] == s.items;
    case MoveHead =>
      MsgRing.PendingShrinks(s.items, s.head, s.tail);
      assert ([s.items[s.head]] + MsgRing.Pending(s.items, MsgRing.Next(s.head),
             s.tail))[1..] == MsgRing.Pending(s.items, MsgRing.Next(s.head), s.tail);
    case _ =>
  }
}
