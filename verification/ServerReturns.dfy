/** What the calls of the file server return: which writes are accepted whole, and how many bytes of the file each read
    returns, whatever the worker and the other callers do during the call. */
module ServerReturns {
  import opened Bytes
  import opened FileServer
  import opened ServerProgress

  /** Between steps `i` and `j`, the handle's owner has not returned from the call that it made at step `i`. */
  ghost predicate InCall(run: seq<State>, h: nat, i: nat, j: nat) {
    i < j < |run| && forall k {:trigger run[k]} :: i < k <= j ==> h in run[k].files && run[k].files[h].phase != Ready
  }

  predicate Asks(p: Phase, req: Request) {
    (p.Asking? || p.Waiting? || p.Woken?) && p.req == req
  }

  /** How many chunks the worker has moved for the handle's request: 64, once it has answered. */
  function Turns(f: Handle, w: Worker): nat {
    if w.Drain? || w.Fill? then w.idx
    else if w.DrainHand? || w.FillHand? then w.idx + 1
    else if f.phase.Woken? || Answered(f, w) then 64
    else 0
  }

  function Left(len: nat, turns: nat): nat {
    if len <= 1024 * turns then 0 else len - 1024 * turns
  }

  /** During a write that began in the state `g`: the worker has taken its chunks out of a slotted writer's FIFO, and nothing
      out of any other's. */
  predicate Writing(f: Handle, w: Worker, d: seq<byte>, g: Handle) {
    && Asks(f.phase, WriteReq(d)) && f.accepted == g.accepted && f.cap == g.cap
    && (if f.slotted then |f.fifo| <= Left(|g.fifo|, Turns(f, w)) else |f.fifo| == |g.fifo|)
  }

  /** During a read that began in the state `g`: the worker has added its chunks, as far as there is room in the FIFO and
      something left of the file. */
  predicate Reading(f: Handle, w: Worker, size: nat, g: Handle) {
    && Asks(f.phase, ReadReq(size)) && f.taken == g.taken && f.content == g.content && f.cap == g.cap
    && Turns(f, w) <= 64 && f.cap > 1 && |f.taken| <= |f.content|
    && |f.fifo| + |ReadHand(w)| == Min(Min(f.cap - 1, |f.content| - |f.taken|), |g.fifo| + 1024 * Turns(f, w))
  }

  /** A worker's step on a handle leaves its owner's side alone. */
  lemma WorkerLeaves(s: State, a: Action, s': State, h: nat)
    requires WorkerStep(s, a, s') && h in s.files
    ensures h in s'.files
    ensures var f, f' := s.files[h], s'.files[h];
            f'.accepted == f.accepted && f'.taken == f.taken && f'.phase == f.phase && f'.writer == f.writer && f'.cap == f.cap
  {
    hide Splice, SlotOf, Freed;
  }

  /** The other caller's steps leave a handle alone; sending leaves its bytes alone. */
  lemma CallerLeaves(s: State, a: Action, s': State, h: nat)
    requires CallerStep(s, a, s') && h in s.files
    ensures h in s'.files
    ensures !(a.Caller? && a.h == h) ==>
              s'.files[h].accepted == s.files[h].accepted && s'.files[h].taken == s.files[h].taken
    ensures a.Caller? && a.h == h ==> Enabled(s.files[h], a.call) && s'.files[h] == Called(s.files[h], a.call)
  {
  }

  lemma CallAccepts(f: Handle, c: Call)
    requires Enabled(f, c)
    ensures c.PutFast? ==> |f.fifo| + |c.data| < f.cap && Called(f, c).accepted == f.accepted + c.data
    ensures c.PutRefused? ==> |f.fifo| + |c.data| >= f.cap && Called(f, c).phase == Asking(WriteReq(c.data))
    ensures c == FinishPut ==>
              && f.phase.Woken? && f.phase.req.WriteReq? && Called(f, c).phase == Ready
              && var d := f.phase.req.data;
              Called(f, c).accepted == f.accepted + if |f.fifo| + |d| < f.cap then d else []
    ensures !c.PutFast? && c != FinishPut ==> Called(f, c).accepted == f.accepted
  {
    assert f.accepted + [] == f.accepted;
  }

  /** Bytes become accepted when a put succeeds, which it does exactly if they leave a byte of the ring free. */
  lemma WhenAccepted(s: State, a: Action, s': State, h: nat)
    requires Step(s, a, s') && h in s.files
    ensures h in s'.files
    ensures forall d :: a == Caller(h, PutFast(d)) ==>
              |s.files[h].fifo| + |d| < s.files[h].cap && s'.files[h].accepted == s.files[h].accepted + d
    ensures forall d :: a == Caller(h, PutRefused(d)) ==>
              && |s.files[h].fifo| + |d| >= s.files[h].cap
              && s'.files[h].phase == Asking(WriteReq(d)) && s'.files[h].accepted == s.files[h].accepted
    ensures a == Caller(h, FinishPut) ==>
              && s.files[h].phase.Woken? && s.files[h].phase.req.WriteReq? && s'.files[h].phase == Ready
              && var d := s.files[h].phase.req.data;
              s'.files[h].accepted == s.files[h].accepted + if |s.files[h].fifo| + |d| < s.files[h].cap then d else []
    ensures a != Caller(h, FinishPut) && (forall d :: a != Caller(h, PutFast(d))) ==> s'.files[h].accepted == s.files[h].accepted
  {
    hide CallerStep, WorkerStep, Called, Enabled;
    StepsDiffer(s, a, s');
    if ByWorker(a) {
      WorkerLeaves(s, a, s', h);
    } else {
      CallerLeaves(s, a, s', h);
      if a.Caller? && a.h == h { CallAccepts(s.files[h], a.call); }
    }
  }

  lemma CallTakes(f: Handle, c: Call)
    requires Enabled(f, c)
    ensures c.GetFast? ==> 0 < c.size <= |f.fifo| && Called(f, c).taken == f.taken + f.fifo[..c.size]
    ensures c.GetRefused? ==> |f.fifo| < c.size && Called(f, c).phase == Asking(ReadReq(c.size))
    ensures c == FinishGet ==>
              && f.phase.Woken? && f.phase.req.ReadReq? && Called(f, c).phase == Ready
              && var n := f.phase.req.size;
              Called(f, c).taken == f.taken + if n <= |f.fifo| then f.fifo[..n] else f.fifo
    ensures !c.GetFast? && c != FinishGet ==> Called(f, c).taken == f.taken
  {
    assert f.fifo[..|f.fifo|] == f.fifo;
  }

  /** Bytes are returned from the front of the FIFO: all that a read asks for at once, or else what there is when it ends. */
  lemma WhenTaken(s: State, a: Action, s': State, h: nat)
    requires Step(s, a, s') && h in s.files
    ensures h in s'.files
    ensures forall n: nat :: a == Caller(h, GetFast(n)) ==>
              0 < n <= |s.files[h].fifo| && s'.files[h].taken == s.files[h].taken + s.files[h].fifo[..n]
    ensures forall n: nat :: a == Caller(h, GetRefused(n)) ==>
              n > |s.files[h].fifo| && s'.files[h].phase == Asking(ReadReq(n)) && s'.files[h].taken == s.files[h].taken
    ensures a == Caller(h, FinishGet) ==>
              && s.files[h].phase.Woken? && s.files[h].phase.req.ReadReq? && s'.files[h].phase == Ready
              && var n := s.files[h].phase.req.size;
              s'.files[h].taken == s.files[h].taken + if n <= |s.files[h].fifo| then s.files[h].fifo[..n] else s.files[h].fifo
    ensures a != Caller(h, FinishGet) && (forall n: nat :: a != Caller(h, GetFast(n))) ==> s'.files[h].taken == s.files[h].taken
  {
    hide CallerStep, WorkerStep, Called, Enabled;
    StepsDiffer(s, a, s');
    if ByWorker(a) {
      WorkerLeaves(s, a, s', h);
    } else {
      CallerLeaves(s, a, s', h);
      if a.Caller? && a.h == h { CallTakes(s.files[h], a.call); }
    }
  }

  lemma CallKeepsWriting(f: Handle, c: Call, queued: nat, w: Worker, d: seq<byte>, g: Handle)
    requires Writing(f, w, d, g) && RequestOk(f, queued, w) && Enabled(f, c)
    ensures Called(f, c).phase == Ready || Writing(Called(f, c), w, d, g)
  {
  }

  lemma SendKeepsWriting(f: Handle, queued: nat, w: Worker, d: seq<byte>, g: Handle)
    requires Writing(f, w, d, g) && RequestOk(f, queued, w) && f.phase.Asking?
    ensures Writing(f.(phase := Waiting(f.phase.req), requests := f.requests + 1), w, d, g)
  {
  }

  lemma CallerKeepsWriting(s: State, a: Action, s': State, h: nat, d: seq<byte>, g: Handle)
    requires Inv(s) && CallerStep(s, a, s') && h in s.files && Writing(s.files[h], Local(s.worker, h), d, g)
    ensures h in s'.files
    ensures s'.files[h].phase == Ready || Writing(s'.files[h], Local(s'.worker, h), d, g)
  {
    hide Inv, BytesOk, LifeOk, WorkOk, RequestOk, Writing, Queued, SlotOf, Called, Enabled, Local;
    HandleAt(s, h);
    var f, w := s.files[h], Local(s.worker, h);
    match a
    case Caller(k, c) => if k == h { CallKeepsWriting(f, c, Queued(s.queue, h), w, d, g); }
    case SendRefused(k) => if k == h { CallKeepsWriting(f, GiveUp, Queued(s.queue, h), w, d, g); }
    case Send(k) => if k == h { SendKeepsWriting(f, Queued(s.queue, h), w, d, g); }
    case _ =>
  }

  lemma DrainsKeepWriting(s: State, s': State, h: nat, d: seq<byte>, g: Handle)
    requires Inv(s) && WorkerStep(s, DrainStep, s') && h in s.files && Writing(s.files[h], Local(s.worker, h), d, g)
    ensures h in s'.files && Writing(s'.files[h], Local(s'.worker, h), d, g)
  {
    hide Inv, Splice, SlotOf, Freed, BytesOk, Queued;
    HandleAt(s, h);
  }

  lemma OthersKeepWriting(s: State, a: Action, s': State, h: nat, d: seq<byte>, g: Handle)
    requires Inv(s) && WorkerStep(s, a, s') && !a.DrainStep? && h in s.files && Writing(s.files[h], Local(s.worker, h), d, g)
    ensures h in s'.files && Writing(s'.files[h], Local(s'.worker, h), d, g)
  {
    hide Inv, Splice, SlotOf, Freed, BytesOk;
    HandleAt(s, h);
    if a.SweepStep? && s.worker.i < |s.slots| && s.slots[s.worker.i] == Some(h) { InSlots(s.slots, s.worker.i, h); }
  }

  lemma WorkerKeepsWriting(s: State, a: Action, s': State, h: nat, d: seq<byte>, g: Handle)
    requires Inv(s) && WorkerStep(s, a, s') && h in s.files && Writing(s.files[h], Local(s.worker, h), d, g)
    ensures h in s'.files && Writing(s'.files[h], Local(s'.worker, h), d, g)
  {
    hide Inv, WorkerStep, Writing;
    if a.DrainStep? {
      DrainsKeepWriting(s, s', h, d, g);
    } else {
      OthersKeepWriting(s, a, s', h, d, g);
    }
  }

  /** A reader's file pointer is where its FIFO and the worker's hand end. */
  lemma ReaderBytes(f: Handle, w: Worker)
    requires BytesOk(f, w) && !f.writer
    ensures |f.taken| + |f.fifo| + |ReadHand(w)| == f.pos <= |f.content| && |f.fifo| + |ReadHand(w)| < f.cap
  {
    hide Splice;
  }

  lemma CallKeepsReading(f: Handle, c: Call, queued: nat, w: Worker, size: nat, g: Handle)
    requires Reading(f, w, size, g) && RequestOk(f, queued, w) && Enabled(f, c)
    ensures Called(f, c).phase == Ready || Reading(Called(f, c), w, size, g)
  {
  }

  lemma SendKeepsReading(f: Handle, queued: nat, w: Worker, size: nat, g: Handle)
    requires Reading(f, w, size, g) && RequestOk(f, queued, w) && f.phase.Asking?
    ensures Reading(f.(phase := Waiting(f.phase.req), requests := f.requests + 1), w, size, g)
  {
  }

  lemma CallerKeepsReading(s: State, a: Action, s': State, h: nat, size: nat, g: Handle)
    requires Inv(s) && CallerStep(s, a, s') && h in s.files && Reading(s.files[h], Local(s.worker, h), size, g)
    ensures h in s'.files
    ensures s'.files[h].phase == Ready || Reading(s'.files[h], Local(s'.worker, h), size, g)
  {
    hide Inv, BytesOk, LifeOk, WorkOk, RequestOk, Reading, Queued, SlotOf, Called, Enabled, Local;
    HandleAt(s, h);
    var f, w := s.files[h], Local(s.worker, h);
    match a
    case Caller(k, c) => if k == h { CallKeepsReading(f, c, Queued(s.queue, h), w, size, g); }
    case SendRefused(k) => if k == h { CallKeepsReading(f, GiveUp, Queued(s.queue, h), w, size, g); }
    case Send(k) => if k == h { SendKeepsReading(f, Queued(s.queue, h), w, size, g); }
    case _ =>
  }

  /** One turn of the worker's read loop: a whole chunk, or what there is room for, or what is left of the file. */
  lemma FillKeepsReading(f: Handle, w: Worker, size: nat, g: Handle, n: nat)
    requires Reading(f, w, size, g) && w.Fill? && f.pos == |f.taken| + |f.fifo| <= |f.content|
    requires f.phase.Waiting? && |f.fifo| < f.cap && n == Min(Min(f.cap - 1 - |f.fifo|, 1024), |f.content| - f.pos)
    ensures n > 0 && w.idx < 64 ==>
              Reading(f.(pos := f.pos + n), FillHand(w.h, w.req, w.idx, f.content[f.pos..f.pos + n]), size, g)
    ensures n == 0 || w.idx >= 64 ==> Reading(f, Reply(w.h, w.req), size, g)
  {
  }

  lemma FillsWaiting(f: Handle, queued: nat, w: Worker)
    requires RequestOk(f, queued, w) && Handling(w)
    ensures f.phase.Waiting?
  {
  }

  /** The worker's step on the handle, unless it fills the FIFO: the request goes on, or it is another handle's turn. */
  lemma OthersKeepReading(s: State, a: Action, s': State, h: nat, size: nat, g: Handle)
    requires Inv(s) && WorkerStep(s, a, s') && h in s.files && !s.files[h].writer && !a.FillStep? && !a.StoreChunk?
    requires Reading(s.files[h], Local(s.worker, h), size, g)
    ensures h in s'.files && Reading(s'.files[h], Local(s'.worker, h), size, g)
  {
    hide Inv, Splice, SlotOf, Freed, BytesOk, Min;
    HandleAt(s, h);
    if a.SweepStep? && s.worker.i < |s.slots| && s.slots[s.worker.i] == Some(h) { InSlots(s.slots, s.worker.i, h); }
  }

  lemma FillsKeepReading(s: State, s': State, h: nat, size: nat, g: Handle)
    requires Inv(s) && WorkerStep(s, FillStep, s') && h in s.files && !s.files[h].writer
    requires Reading(s.files[h], Local(s.worker, h), size, g)
    ensures h in s'.files && Reading(s'.files[h], Local(s'.worker, h), size, g)
  {
    hide Inv, Splice, BytesOk, RequestOk, LifeOk, WorkOk, Reading, Min;
    HandleAt(s, h);
    var f, w := s.files[h], s.worker;
    if w.h == h {
      ReaderBytes(f, w);
      FillsWaiting(f, Queued(s.queue, h), w);
      FillKeepsReading(f, w, size, g, Min(Min(f.cap - 1 - |f.fifo|, 1024), |f.content| - f.pos));
    }
  }

  lemma StoresKeepReading(s: State, s': State, h: nat, size: nat, g: Handle)
    requires Inv(s) && WorkerStep(s, StoreChunk, s') && h in s.files && !s.files[h].writer
    requires Reading(s.files[h], Local(s.worker, h), size, g)
    ensures h in s'.files && Reading(s'.files[h], Local(s'.worker, h), size, g)
  {
    hide Inv, Splice, BytesOk, RequestOk, LifeOk, WorkOk, Min;
    HandleAt(s, h);
    var f, w := s.files[h], s.worker;
    if w.h == h {
      FillsWaiting(f, Queued(s.queue, h), w);
      StoredHandle(f, Queued(s.queue, h), SlotOf(s.slots, h), w);
    }
  }

  lemma WorkerKeepsReading(s: State, a: Action, s': State, h: nat, size: nat, g: Handle)
    requires Inv(s) && WorkerStep(s, a, s') && h in s.files && !s.files[h].writer
    requires Reading(s.files[h], Local(s.worker, h), size, g)
    ensures h in s'.files && Reading(s'.files[h], Local(s'.worker, h), size, g)
  {
    hide Inv, WorkerStep, Reading;
    match a
    case FillStep => FillsKeepReading(s, s', h, size, g);
    case StoreChunk => StoresKeepReading(s, s', h, size, g);
    case _ => OthersKeepReading(s, a, s', h, size, g);
  }

  lemma WriteBegins(s: State, h: nat, d: seq<byte>, s': State)
    requires Inv(s) && CallerStep(s, Caller(h, PutRefused(d)), s')
    ensures h in s.files && h in s'.files && Writing(s'.files[h], Local(s'.worker, h), d, s.files[h])
    ensures |s.files[h].fifo| < s.files[h].cap <= |s.files[h].fifo| + |d|
  {
    hide Inv, BytesOk, Queued, SlotOf;
    HandleAt(s, h);
    BytesBounds(s.files[h], Local(s.worker, h));
  }

  lemma {:induction false} WriteGoesOn(run: seq<State>, acts: seq<Action>, i: nat, k: nat, h: nat, d: seq<byte>)
    requires IsRun(run, acts) && InCall(run, h, i, k) && acts[i] == Caller(h, PutRefused(d))
    ensures h in run[i].files && Writing(run[k].files[h], Local(run[k].worker, h), d, run[i].files[h])
  {
    hide Inv, CallerStep, WorkerStep, Writing, Local;
    var s, a, s' := run[k - 1], acts[k - 1], run[k];
    RunKeeps(run, acts, k - 1);
    StepsDiffer(s, a, s');
    if k == i + 1 {
      WriteBegins(s, h, d, s');
    } else {
      assert InCall(run, h, i, k - 1);
      WriteGoesOn(run, acts, i, k - 1, h, d);
      if ByWorker(a) {
        WorkerKeepsWriting(s, a, s', h, d, run[i].files[h]);
      } else {
        CallerKeepsWriting(s, a, s', h, d, run[i].files[h]);
      }
    }
  }

  lemma ReadBegins(s: State, h: nat, size: nat, s': State)
    requires Inv(s) && CallerStep(s, Caller(h, GetRefused(size)), s')
    ensures h in s.files && h in s'.files && Reading(s'.files[h], Local(s'.worker, h), size, s.files[h])
  {
    hide Inv, BytesOk, Queued, SlotOf;
    HandleAt(s, h);
    ReaderBytes(s.files[h], Local(s.worker, h));
  }

  lemma AskerReads(s: State, h: nat, size: nat)
    requires Inv(s) && h in s.files && Asks(s.files[h].phase, ReadReq(size))
    ensures !s.files[h].writer
  {
    hide Inv, BytesOk, Queued, SlotOf;
    HandleAt(s, h);
  }

  lemma ReadingAsks(f: Handle, w: Worker, size: nat, g: Handle)
    requires Reading(f, w, size, g)
    ensures Asks(f.phase, ReadReq(size))
  {
  }

  lemma {:induction false} ReadGoesOn(run: seq<State>, acts: seq<Action>, i: nat, k: nat, h: nat, size: nat)
    requires IsRun(run, acts) && InCall(run, h, i, k) && acts[i] == Caller(h, GetRefused(size))
    ensures h in run[i].files && Reading(run[k].files[h], Local(run[k].worker, h), size, run[i].files[h])
  {
    hide Inv, CallerStep, WorkerStep, Reading, Local;
    var s, a, s' := run[k - 1], acts[k - 1], run[k];
    RunKeeps(run, acts, k - 1);
    StepsDiffer(s, a, s');
    if k == i + 1 {
      ReadBegins(s, h, size, s');
    } else {
      assert InCall(run, h, i, k - 1);
      ReadGoesOn(run, acts, i, k - 1, h, size);
      if ByWorker(a) {
        ReadingAsks(s.files[h], Local(s.worker, h), size, run[i].files[h]);
        AskerReads(s, h, size);
        WorkerKeepsReading(s, a, s', h, size, run[i].files[h]);
      } else {
        CallerKeepsReading(s, a, s', h, size, run[i].files[h]);
      }
    }
  }

  /** A blocking write returns: it is accepted whole or not at all, and whole exactly if it leaves a byte of the ring free
      then.  The worker has made room for a slotted writer: 64 KiB, or all of the FIFO.  So a write of at most 64 KiB that
      fits the ring is always accepted.  Without a slot, a write that did not fit at once never succeeds. */
  lemma WriteReturns(run: seq<State>, acts: seq<Action>, i: nat, j: nat, h: nat, d: seq<byte>)
    requires IsRun(run, acts) && InCall(run, h, i, j) && j < |acts|
    requires acts[i] == Caller(h, PutRefused(d)) && acts[j] == Caller(h, FinishPut)
    ensures h in run[i].files && h in run[j + 1].files && run[j + 1].files[h].phase == Ready
    ensures var was, f, now := run[i].files[h], run[j].files[h], run[j + 1].files[h];
            && now.accepted == was.accepted + (if |f.fifo| + |d| < f.cap then d else [])
            && (f.slotted && |d| < f.cap && |was.fifo| + |d| < f.cap + 65536 ==> now.accepted == was.accepted + d)
            && (f.slotted && |d| < f.cap && |d| <= 65536 ==> now.accepted == was.accepted + d)
            && (!f.slotted ==> now.accepted == was.accepted)
  {
    hide Inv, CallerStep, WorkerStep, Called, Enabled;
    WriteGoesOn(run, acts, i, j, h, d);
    StepsDiffer(run[i], acts[i], run[i + 1]);
    RunKeeps(run, acts, i);
    WriteBegins(run[i], h, d, run[i + 1]);
    RunKeeps(run, acts, j);
    WhenAccepted(run[j], acts[j], run[j + 1], h);
    FinishingIdle(run[j], h);
    assert run[i].files[h].accepted + [] == run[i].files[h].accepted;
  }

  /** A blocking read returns: the next bytes of the file, as many as were asked for, as the ring can hold, as lay in the FIFO
      and fit into 64 KiB beside it, and as are left of the file.  So a read of at most 64 KiB that fits the ring is short
      only at the end of the file, and then returns all that is left. */
  lemma ReadReturns(run: seq<State>, acts: seq<Action>, i: nat, j: nat, h: nat, size: nat)
    requires IsRun(run, acts) && InCall(run, h, i, j) && j < |acts|
    requires acts[i] == Caller(h, GetRefused(size)) && acts[j] == Caller(h, FinishGet)
    ensures h in run[i].files && h in run[j + 1].files && run[j + 1].files[h].phase == Ready
    ensures var was, now := run[i].files[h], run[j + 1].files[h];
            && was.taken <= was.content && was.cap > 1
            && var left := |was.content| - |was.taken|;
            && var n := |now.taken| - |was.taken|;
            && 0 <= n <= left && now.taken == was.content[..|was.taken| + n]
            && n <= size && n <= was.cap - 1 && n <= |was.fifo| + 65536
            && (n == size || n == was.cap - 1 || n == |was.fifo| + 65536 || n == left)
            && (size < was.cap && size <= 65536 ==> n == if size <= left then size else left)
  {
    hide Inv, CallerStep, WorkerStep, Called, Enabled, BytesOk;
    ReadGoesOn(run, acts, i, j, h, size);
    StepsDiffer(run[i], acts[i], run[i + 1]);
    RunKeeps(run, acts, j);
    WhenTaken(run[j], acts[j], run[j + 1], h);
    AskerReads(run[j], h, size);
    ReadPrefix(run, acts, j, h);
    var f := run[j].files[h];
    FinishingIdle(run[j], h);
    var n := Min(size, |f.fifo|);
    assert f.taken + f.fifo[..n] == (f.taken + (f.fifo + []))[..|f.taken| + n];
  }

  lemma FinishingIdle(s: State, h: nat)
    requires Inv(s) && h in s.files && s.files[h].phase.Woken?
    ensures Turns(s.files[h], Local(s.worker, h)) == 64 && ReadHand(Local(s.worker, h)) == []
  {
    hide Inv, BytesOk, Queued, SlotOf;
    HandleAt(s, h);
  }

  /** The step with which the owner of a handle begins a call that asks the worker. */
  predicate Begins(c: Call, req: Request) {
    match req
    case WriteReq(d) => c == PutRefused(d)
    case ReadReq(n) => c == GetRefused(n)
    case _ => false
  }

  lemma CallAsks(f: Handle, c: Call, req: Request)
    requires Enabled(f, c) && Asks(Called(f, c).phase, req)
    ensures Asks(f.phase, req) || (f.phase == Ready && (Begins(c, req) || req == CloseReq))
  {
  }

  lemma AskedBefore(s: State, a: Action, s': State, h: nat, req: Request)
    requires CallerStep(s, a, s') && h in s'.files && Asks(s'.files[h].phase, req) && (req.WriteReq? || req.ReadReq?)
    ensures h in s.files
    ensures Asks(s.files[h].phase, req) || (s.files[h].phase == Ready && a.Caller? && a.h == h && Begins(a.call, req))
  {
    hide Enabled, Called;
    if a.Caller? && a.h == h { CallAsks(s.files[h], a.call, req); }
    if a.SendRefused? && a.h == h { CallAsks(s.files[h], GiveUp, req); }
  }

  lemma WorkerAdds(s: State, a: Action, s': State)
    requires WorkerStep(s, a, s')
    ensures s'.files.Keys == s.files.Keys
  {
    hide Splice, SlotOf, Freed;
  }

  /** Every call that is going on began with a step of its own. */
  lemma {:induction false} CallBegan(run: seq<State>, acts: seq<Action>, j: nat, h: nat, req: Request) returns (i: nat)
    requires IsRun(run, acts) && j < |run| && h in run[j].files && Asks(run[j].files[h].phase, req)
    requires req.WriteReq? || req.ReadReq?
    ensures InCall(run, h, i, j) && acts[i].Caller? && acts[i].h == h && Begins(acts[i].call, req)
  {
    hide CallerStep, WorkerStep, Begins;
    if j == 0 {
      assert false;
    } else {
      i := j - 1;
      var s, a, s' := run[j - 1], acts[j - 1], run[j];
      StepsDiffer(s, a, s');
      if ByWorker(a) {
        WorkerAdds(s, a, s');
        assert h in s.files.Keys;
        WorkerLeaves(s, a, s', h);
        i := CallBegan(run, acts, j - 1, h, req);
      } else {
        AskedBefore(s, a, s', h, req);
        if Asks(s.files[h].phase, req) { i := CallBegan(run, acts, j - 1, h, req); }
      }
    }
  }

  predicate AtSlot(w: Worker, i: nat) {
    (w.Sweep? || w.SweepHand?) && w.i == i
  }

  /** During the worker's turn at slot `i`, which began with the file pointer at `from`. */
  predicate Sweeping(s: State, i: nat, h: nat, from: nat) {
    && i < |s.slots| && s.slots[i] == Some(h) && h in s.files && AtSlot(s.worker, i) && s.worker.idx <= 64
    && s.files[h].pos == from + 1024 * s.worker.idx
    && (s.worker.SweepHand? ==> s.worker.h == h && |s.worker.chunk| == 1024 && s.worker.idx < 64)
  }

  lemma CallerKeepsSweeping(s: State, a: Action, s': State, i: nat, h: nat, from: nat)
    requires CallerStep(s, a, s') && Sweeping(s, i, h, from)
    ensures Sweeping(s', i, h, from)
  {
  }

  lemma WorkerKeepsSweeping(s: State, a: Action, s': State, i: nat, h: nat, from: nat)
    requires WorkerStep(s, a, s') && Sweeping(s, i, h, from) && LeavesRoom(s, a)
    ensures Sweeping(s', i, h, from) || (
              && s.worker.Sweep? && s' == s.(worker := Sweep(i + 1, 0))
              && (s.worker.idx == 64 || |s.files[h].fifo| < 1024))
  {
    hide Splice, SlotOf, Freed;
  }

  lemma SweepingBegins(s: State, i: nat, h: nat)
    requires s.worker == Sweep(i, 0) && i < |s.slots| && s.slots[i] == Some(h) && h in s.files
    ensures Sweeping(s, i, h, s.files[h].pos)
  {
  }

  lemma {:induction false} SweepGoesOn(run: seq<State>, acts: seq<Action>, k: nat, m: nat, i: nat, h: nat)
    requires IsRun(run, acts) && k <= m < |run| && Roomy(run, acts, m) && h in run[k].files
    requires run[k].worker == Sweep(i, 0) && i < |run[k].slots| && run[k].slots[i] == Some(h)
    requires forall x {:trigger run[x]} :: k <= x <= m ==> AtSlot(run[x].worker, i)
    ensures Sweeping(run[m], i, h, run[k].files[h].pos)
  {
    hide CallerStep, WorkerStep, Sweeping, LeavesRoom;
    if m == k {
      SweepingBegins(run[k], i, h);
    } else {
      SweepGoesOn(run, acts, k, m - 1, i, h);
      var s, a, s' := run[m - 1], acts[m - 1], run[m];
      StepsDiffer(s, a, s');
      if ByWorker(a) {
        WorkerKeepsSweeping(s, a, s', i, h, run[k].files[h].pos);
      } else {
        CallerKeepsSweeping(s, a, s', i, h, run[k].files[h].pos);
      }
    }
  }

  /** A sweep's turn at a slot writes whole chunks, until less than a chunk is in the FIFO, or 64 of them. */
  lemma SweepTurn(run: seq<State>, acts: seq<Action>, k: nat, m: nat, i: nat, h: nat)
    requires IsRun(run, acts) && k <= m < |acts| && Roomy(run, acts, m + 1) && i < |run[k].slots| && run[k].slots[i] == Some(h)
    requires run[k].worker == Sweep(i, 0) && forall x {:trigger run[x]} :: k <= x <= m ==> AtSlot(run[x].worker, i)
    requires !AtSlot(run[m + 1].worker, i)
    ensures h in run[k].files && h in run[m].files && run[m].worker.Sweep? && run[m + 1] == run[m].(worker := Sweep(i + 1, 0))
    ensures var turns, f := run[m].worker.idx, run[m].files[h];
            f.pos == run[k].files[h].pos + 1024 * turns && turns <= 64 && (turns < 64 ==> |f.fifo| < 1024)
  {
    hide CallerStep, WorkerStep, LeavesRoom, Inv;
    RunKeeps(run, acts, k);
    SlotHeld(run[k], i, h);
    SweepGoesOn(run, acts, k, m, i, h);
    StepsDiffer(run[m], acts[m], run[m + 1]);
    assert LeavesRoom(run[m], acts[m]);
    var from := run[k].files[h].pos;
    if ByWorker(acts[m]) {
      WorkerKeepsSweeping(run[m], acts[m], run[m + 1], i, h, from);
    } else {
      CallerKeepsSweeping(run[m], acts[m], run[m + 1], i, h, from);
    }
  }

  lemma SlotHeld(s: State, i: nat, h: nat)
    requires Inv(s) && i < |s.slots| && s.slots[i] == Some(h)
    ensures h in s.files
  {
    hide Ok, QueueOk;
  }
}
