/** The file server of src/ramdisk.cpp over whole runs: callers fill and empty FIFOs and post requests, one worker
    thread moves the bytes to and from the files.  FIFO and queue calls are atomic here; ServerCalls shows that they may be. */
module FileServer {
  import opened Arith
  import opened Bytes

  datatype Option<T> = None | Some(value: T)

  datatype Request = OpenReq | CloseReq | ReadReq(size: nat) | WriteReq(data: seq<byte>)

  /** What the worker has done with a handle's file. */
  datatype Life = Fresh | Open | Closed | Failed

  /** Where the caller that owns a handle stands. */
  datatype Phase =
    | Ready                    // between two calls
    | Asking(req: Request)     // about to send a request
    | Waiting(req: Request)    // request accepted, blocked on the semaphore
    | Woken(req: Request)      // semaphore taken, call not finished
    | Gone                     // handle freed

  datatype Handle = Handle(
    writer: bool,
    cap: nat,                  // size of the FIFO's ring
    fifo: seq<byte>,
    initial: seq<byte>,        // the file's contents when the worker opened it
    content: seq<byte>,
    pos: nat,                  // the file pointer
    life: Life,
    slotted: bool,             // the worker had a free slot for it
    short: bool,               // some f_write was short
    sem: nat,
    phase: Phase,
    accepted: seq<byte>,       // all bytes that ramfs_fwrite accepted
    taken: seq<byte>,          // all bytes that ramfs_fread returned
    requests: nat,             // blocking requests accepted
    posts: nat                 // times the semaphore was posted
  )

  datatype Msg = Ask(h: nat, req: Request) | Other

  datatype Worker =
    | Poll
    | Sweep(i: nat, idx: nat)
    | SweepHand(i: nat, idx: nat, h: nat, chunk: seq<byte>)
    | Serve(h: nat, req: Request)
    | Drain(h: nat, req: Request, idx: nat)
    | DrainHand(h: nat, req: Request, idx: nat, chunk: seq<byte>)
    | Fill(h: nat, req: Request, idx: nat)
    | FillHand(h: nat, req: Request, idx: nat, chunk: seq<byte>)
    | Reply(h: nat, req: Request)

  datatype State = State(
    files: map<nat, Handle>,
    queue: seq<Msg>,
    slots: seq<Option<nat>>,
    worker: Worker
  )

  /** A caller's steps on its own handle. */
  datatype Call =
    | PutFast(data: seq<byte>)
    | PutRefused(data: seq<byte>)
    | GetFast(size: nat)
    | GetRefused(size: nat)
    | BeginClose
    | GiveUp
    | Wake
    | FinishOpen
    | FinishClose
    | FinishPut
    | FinishGet

  /** Steps of the callers, then steps of the worker. */
  datatype Action =
    | Allocate(h: nat, writer: bool, cap: nat)
    | Caller(h: nat, call: Call)
    | Send(h: nat)
    | SendRefused(h: nat)
    | SendOther
    | Receive
    | StartSweep
    | SweepStep
    | WriteChunk(bw: nat, free: nat)   // bytes written, and clusters free afterwards
    | ServeOpen(ok: bool, content: seq<byte>)
    | ServeStep
    | DrainStep
    | FillStep
    | StoreChunk
    | Post

  function Min(a: nat, b: nat): nat {
    if a <= b then a else b
  }

  predicate SlotOf(slots: seq<Option<nat>>, h: nat) {
    exists i {:trigger slots[i]} :: 0 <= i < |slots| && slots[i] == Some(h)
  }

  function Freed(slots: seq<Option<nat>>, h: nat): (r: seq<Option<nat>>)
    ensures |r| == |slots|
  {
    seq(|slots|, i requires 0 <= i < |slots| => if slots[i] == Some(h) then None else slots[i])
  }

  /** Whether FIFO calls succeed: Put leaves a byte free, Get takes all or nothing. */
  predicate PutFits(f: Handle, n: nat) {
    0 < n && |f.fifo| + n < f.cap
  }

  predicate GetFits(f: Handle, n: nat) {
    0 < n <= |f.fifo|
  }

  function PutIn(f: Handle, d: seq<byte>): Handle {
    f.(fifo := f.fifo + d)
  }

  function GotOut(f: Handle, n: nat): Handle
    requires n <= |f.fifo|
  {
    f.(fifo := f.fifo[n..], taken := f.taken + f.fifo[..n])
  }

  function Wrote(f: Handle, d: seq<byte>, bw: nat): Handle
    requires f.pos <= |f.content| && bw <= |d|
  {
    f.(content := Splice(f.content, f.pos, d[..bw]), pos := f.pos + bw, short := f.short || bw < |d|)
  }

  /** f_write's promise: it is short only on a full disk, or at the largest size of a file. */
  predicate ShortOnly(f: Handle, chunk: seq<byte>, bw: nat, free: nat) {
    bw < |chunk| ==> free == 0 || (bw == 0 && |f.content| + |chunk| > 0xFFFF_FFFF)
  }

  /** The guard of a caller's step on its own handle. */
  predicate Enabled(f: Handle, c: Call) {
    match c
    case PutFast(d) => f.phase == Ready && f.writer && PutFits(f, |d|)
    case PutRefused(d) => f.phase == Ready && f.writer && |d| > 0 && !PutFits(f, |d|)
    case GetFast(n) => f.phase == Ready && !f.writer && GetFits(f, n)
    case GetRefused(n) => f.phase == Ready && !f.writer && n > 0 && !GetFits(f, n)
    case BeginClose => f.phase == Ready
    case GiveUp => f.phase.Asking?
    case Wake => f.phase.Waiting? && f.sem > 0
    case FinishOpen => f.phase == Woken(OpenReq)
    case FinishClose => f.phase == Woken(CloseReq)
    case FinishPut => f.phase.Woken? && f.phase.req.WriteReq?
    case FinishGet => f.phase.Woken? && f.phase.req.ReadReq?
  }

  /** The handle after that step. */
  function Called(f: Handle, c: Call): Handle
    requires Enabled(f, c)
  {
    match c
    case PutFast(d) => PutIn(f, d).(accepted := f.accepted + d)
    case PutRefused(d) => f.(phase := Asking(WriteReq(d)))
    case GetFast(n) => GotOut(f, n)
    case GetRefused(n) => f.(phase := Asking(ReadReq(n)))
    case BeginClose => f.(phase := Asking(CloseReq))
    case GiveUp => f.(phase := if f.phase.req == OpenReq then Gone else Ready)
    case Wake => f.(sem := f.sem - 1, phase := Woken(f.phase.req))
    case FinishOpen => f.(phase := if f.life == Open then Ready else Gone)
    case FinishClose => f.(phase := Gone)
    case FinishPut =>
      var d := f.phase.req.data;
      if PutFits(f, |d|) then PutIn(f, d).(accepted := f.accepted + d, phase := Ready) else f.(phase := Ready)
    case FinishGet => GotOut(f, Min(f.phase.req.size, |f.fifo|)).(phase := Ready)
  }

  ghost predicate CallerStep(s: State, a: Action, s': State) {
    match a
    case Allocate(h, w, cap) =>
      h !in s.files && cap > 1 &&
      s' == s.(files := s.files[h := Handle(w, cap, [], [], [], 0, Fresh, false, false, 0, Asking(OpenReq), [], [], 0, 0)])
    case Send(h) =>
      h in s.files && var f := s.files[h];
      f.phase.Asking? && |s.queue| < 63
      && s' == s.(queue := s.queue + [Ask(h, f.phase.req)], files := s.files[h := f.(phase := Waiting(f.phase.req), requests := f.requests + 1)])
    case SendOther => |s.queue| < 63 && s' == s.(queue := s.queue + [Other])
    case SendRefused(h) =>
      h in s.files && Enabled(s.files[h], GiveUp) && |s.queue| == 63
          && s' == s.(files := s.files[h := Called(s.files[h], GiveUp)])
    case Caller(h, c) =>
      c != GiveUp && h in s.files && Enabled(s.files[h], c) && s' == s.(files := s.files[h := Called(s.files[h], c)])
    case _ => false
  }

  /** f_open's outcome for the handle `h`: a writer also gets the first free slot, if there is one. */
  ghost predicate Opened(s: State, h: nat, ok: bool, content: seq<byte>, s': State)
    requires h in s.files
  {
    var f := s.files[h];
    if !ok then s' == s.(files := s.files[h := f.(life := Failed)], worker := Reply(h, OpenReq))
    else
      var f' := f.(life := Open, initial := content, content := content, pos := 0);
      if f.writer && None in s.slots then
        exists i: nat {:trigger s.slots[i]} :: i < |s.slots| && s.slots[i] == None && None !in s.slots[..i] &&
          s' == s.(files := s.files[h := f'.(slotted := true)], slots := s.slots[i := Some(h)], worker := Reply(h, OpenReq))
      else s' == s.(files := s.files[h := f'], worker := Reply(h, OpenReq))
  }

  ghost predicate WorkerStep(s: State, a: Action, s': State) {
    match a
    case Receive =>
      s.worker == Poll && s.queue != []
      && s' == s.(queue := s.queue[1..], worker := if s.queue[0].Ask? then Serve(s.queue[0].h, s.queue[0].req) else Poll)
    case StartSweep => s.worker == Poll && s.queue == [] && s' == s.(worker := Sweep(0, 0))
    case SweepStep =>
      s.worker.Sweep? && var Sweep(i, idx) := s.worker;
      if i >= |s.slots| then s' == s.(worker := Poll)
      else if s.slots[i].None? || idx == 64 then s' == s.(worker := Sweep(i + 1, 0))
      else
        var h := s.slots[i].value;
        h in s.files && var f := s.files[h];
        if GetFits(f, 1024) then s' == s.(files := s.files[h := f.(fifo := f.fifo[1024..])], worker := SweepHand(i, idx, h, f.fifo[..1024]))
        else s' == s.(worker := Sweep(i + 1, 0))
    case WriteChunk(bw, free) =>
      (s.worker.SweepHand? || s.worker.DrainHand?) && s.worker.h in s.files && bw <= |s.worker.chunk|
      && var f := s.files[s.worker.h];
      f.pos <= |f.content| && ShortOnly(f, s.worker.chunk, bw, free)
      && s' == s.(files := s.files[s.worker.h := Wrote(f, s.worker.chunk, bw)],
                  worker := if s.worker.SweepHand? then Sweep(s.worker.i, s.worker.idx + 1)
                      else Drain(s.worker.h, s.worker.req, s.worker.idx + 1))
    case ServeOpen(ok, content) =>
      s.worker.Serve? && s.worker.req == OpenReq && s.worker.h in s.files && Opened(s, s.worker.h, ok, content, s')
    case ServeStep =>
      s.worker.Serve? && s.worker.h in s.files && var h := s.worker.h;
      (match s.worker.req
      case OpenReq => false
      case ReadReq(_) => s' == s.(worker := Fill(h, s.worker.req, 0))
      case WriteReq(_) => s' == s.(worker := if SlotOf(s.slots, h) then Drain(h, s.worker.req, 0) else Reply(h, s.worker.req))
      case CloseReq =>
        if SlotOf(s.slots, h) then s' == s.(worker := Drain(h, CloseReq, 0))
        else s' == s.(files := s.files[h := s.files[h].(life := Closed)], worker := Reply(h, CloseReq)))
    case DrainStep =>
      s.worker.Drain? && s.worker.h in s.files && var h, f := s.worker.h, s.files[s.worker.h];
      var n := Min(|f.fifo|, 1024);
      if n > 0 && (s.worker.req == CloseReq || s.worker.idx < 64) then
        s' == s.(files := s.files[h := f.(fifo := f.fifo[n..])], worker := DrainHand(h, s.worker.req, s.worker.idx, f.fifo[..n]))
      else if s.worker.req == CloseReq then
        s' == s.(files := s.files[h := f.(life := Closed)], slots := Freed(s.slots, h), worker := Reply(h, CloseReq))
      else s' == s.(worker := Reply(h, s.worker.req))
    case FillStep =>
      s.worker.Fill? && s.worker.h in s.files && var h, f := s.worker.h, s.files[s.worker.h];
      f.pos <= |f.content| && |f.fifo| < f.cap &&
      var room := Min(f.cap - 1 - |f.fifo|, 1024);
      var n := Min(room, |f.content| - f.pos);
      if s.worker.idx < 64 && n > 0 then
        s' == s.(files := s.files[h := f.(pos := f.pos + n)],
                 worker := FillHand(h, s.worker.req, s.worker.idx, f.content[f.pos..f.pos + n]))
      else s' == s.(worker := Reply(h, s.worker.req))
    case StoreChunk =>
      s.worker.FillHand? && s.worker.h in s.files && var h, f, c := s.worker.h, s.files[s.worker.h], s.worker.chunk;
      if PutFits(f, |c|) then s' == s.(files := s.files[h := PutIn(f, c)], worker := Fill(h, s.worker.req, s.worker.idx + 1))
      else s' == s.(worker := Reply(h, s.worker.req))
    case Post =>
      s.worker.Reply? && s.worker.h in s.files && var h, f := s.worker.h, s.files[s.worker.h];
      s' == s.(files := s.files[h := f.(sem := f.sem + 1, posts := f.posts + 1)], worker := Poll)
    case _ => false
  }

  ghost predicate Step(s: State, a: Action, s': State) {
    CallerStep(s, a, s') || WorkerStep(s, a, s')
  }

  ghost predicate Init(s: State) {
    s == State(map[], [], [None, None, None, None, None, None, None, None], Poll)
  }

  /** Messages in the queue for handle `h`. */
  function Queued(q: seq<Msg>, h: nat): nat {
    if q == [] then 0 else Queued(q[1..], h) + (if q[0].Ask? && q[0].h == h then 1 else 0)
  }

  lemma {:induction false} QueuedAppend(q: seq<Msg>, m: Msg, h: nat)
    ensures Queued(q + [m], h) == Queued(q, h) + (if m.Ask? && m.h == h then 1 else 0)
  {
    if q == [] {
      assert q + [m] == [m];
    } else {
      QueuedAppend(q[1..], m, h);
      assert (q + [m])[1..] == q[1..] + [m];
    }
  }

  lemma {:induction false} QueuedFound(q: seq<Msg>, i: nat)
    requires i < |q| && q[i].Ask?
    ensures Queued(q, q[i].h) > 0
  {
    if i > 0 {
      QueuedFound(q[1..], i - 1);
    }
  }

  lemma {:induction false} QueuedNone(q: seq<Msg>, h: nat)
    requires forall i {:trigger q[i]} :: 0 <= i < |q| && q[i].Ask? ==> q[i].h != h
    ensures Queued(q, h) == 0
  {
    if q != [] {
      QueuedNone(q[1..], h);
    }
  }

  /** The worker's state as far as it concerns handle `h`. */
  function Local(w: Worker, h: nat): Worker {
    if !w.Poll? && !w.Sweep? && w.h == h then w else Poll
  }

  /** The worker is at this handle's request. */
  predicate Handling(w: Worker) {
    w.Serve? || w.Drain? || w.DrainHand? || w.Fill? || w.FillHand? || w.Reply?
  }

  /** Bytes on their way to the file, and from it. */
  function WriteHand(w: Worker): seq<byte> {
    if w.SweepHand? || w.DrainHand? then w.chunk else []
  }

  function ReadHand(w: Worker): seq<byte> {
    if w.FillHand? then w.chunk else []
  }

  /** A handle's request is in exactly one place: in the queue, with the worker, or answered on the semaphore. */
  predicate RequestOk(f: Handle, queued: nat, w: Worker) {
    var busy := if Handling(w) then 1 else 0;
    && queued + busy + f.sem == (if f.phase.Waiting? then 1 else 0)
    && f.requests == f.posts + queued + busy
    && (Handling(w) ==> f.phase == Waiting(w.req))
    && (f.phase.Asking? || f.phase.Waiting? || f.phase.Woken? ==>
          (f.phase.req.ReadReq? ==> !f.writer) && (f.phase.req.WriteReq? ==> f.writer && f.phase.req.data != []))
  }

  /** No byte is lost, doubled or reordered on its way. */
  predicate BytesOk(f: Handle, w: Worker) {
    && |ReadHand(w)| + |f.fifo| < f.cap && f.pos <= |f.content|
    && (f.writer ==> f.content == Splice(f.initial, 0, f.content[..f.pos]))
    && (f.writer && !f.short ==> f.content[..f.pos] + (WriteHand(w) + f.fifo) == f.accepted)
    && (!f.writer ==> f.taken + (f.fifo + ReadHand(w)) == f.content[..f.pos] && f.content == f.initial)
  }

  /** The worker has done what the handle's request asks; the caller may not have noticed. */
  predicate Answered(f: Handle, w: Worker) {
    f.sem > 0 || w.Reply?
  }

  /** How far the caller and the worker may be apart. */
  predicate InStep(phase: Phase, answered: bool, life: Life) {
    match phase
    case Ready => life == Open
    case Asking(req) => life == if req == OpenReq then Fresh else Open
    case Waiting(req) =>
      if req == OpenReq then (if answered then life == Open || life == Failed else life == Fresh)
      else if req == CloseReq && answered then life == Closed
      else life == Open
    case Woken(req) =>
      if req == OpenReq then life == Open || life == Failed
      else if req == CloseReq then life == Closed
      else life == Open
    case Gone => life != Open
  }

  predicate Untouched(f: Handle) {
    f.fifo == [] && f.accepted == [] && f.taken == [] && f.content == [] && f.initial == [] && f.pos == 0 && !f.slotted
        && !f.short
  }

  /** A handle has a slot exactly while its file is open and it got one; a file is closed with an empty FIFO. */
  predicate LifeOk(f: Handle, slot: bool, w: Worker) {
    && InStep(f.phase, Answered(f, w), f.life)
    && (f.life == Fresh || f.life == Failed ==> Untouched(f))
    && (f.slotted && f.life == Open <==> slot)
    && (f.slotted ==> f.writer)
    && (f.slotted && f.life == Closed ==> f.fifo == [])
    && (f.writer && !f.slotted ==> f.pos == 0)
  }

  predicate IsRead(p: Phase) {
    (p.Waiting? || p.Woken?) && p.req.ReadReq?
  }

  /** What the worker is doing fits the handle; an answered read has bytes to show, unless the file is at its end. */
  predicate WorkOk(f: Handle, slot: bool, w: Worker) {
    && f.cap > 1
    && (IsRead(f.phase) && (Answered(f, w) || f.phase.Woken?) ==> f.fifo != [] || f.pos == |f.content|)
    && (w.SweepHand? || w.Drain? || w.DrainHand? ==> slot)
    && (w.Drain? || w.DrainHand? ==> w.req == CloseReq || w.req.WriteReq?)
    && (w.Fill? || w.FillHand? ==> w.req.ReadReq?)
    && (w.Fill? && w.idx > 0 ==> f.fifo != [])
    && (w.FillHand? ==> w.chunk != [])
  }

  predicate HandleOk(f: Handle, queued: nat, slot: bool, w: Worker) {
    RequestOk(f, queued, w) && BytesOk(f, w) && LifeOk(f, slot, w) && WorkOk(f, slot, w)
  }

  /** Messages and slots name known handles; a message asks what its handle waits for. */
  ghost predicate QueueOk(s: State) {
    && |s.queue| <= 63
    && forall i {:trigger s.queue[i]} :: 0 <= i < |s.queue| && s.queue[i].Ask? ==>
         s.queue[i].h in s.files && s.files[s.queue[i].h].phase == Waiting(s.queue[i].req)
  }

  ghost predicate SlotsOk(s: State) {
    && |s.slots| == 8
    && (forall i {:trigger s.slots[i]} :: 0 <= i < 8 && s.slots[i].Some? ==> s.slots[i].value in s.files)
    && (forall i, j {:trigger s.slots[i], s.slots[j]} :: 0 <= i < j < 8 && s.slots[i].Some? ==> s.slots[i] != s.slots[j])
  }

  predicate WorkerOk(s: State) {
    s.worker.Poll? || s.worker.Sweep? || s.worker.h in s.files
  }

  ghost predicate Ok(s: State, h: nat)
    requires h in s.files
  {
    HandleOk(s.files[h], Queued(s.queue, h), SlotOf(s.slots, h), Local(s.worker, h))
  }

  ghost predicate Inv(s: State) {
    QueueOk(s) && SlotsOk(s) && WorkerOk(s) && forall h {:trigger Ok(s, h)} :: h in s.files ==> Ok(s, h)
  }

  lemma PutKeepsBytes(f: Handle, d: seq<byte>, w: Worker)
    requires BytesOk(f, w) && f.writer && PutFits(f, |d|) && ReadHand(w) == []
    ensures BytesOk(PutIn(f, d).(accepted := f.accepted + d), w)
  {
    hide Splice, ReadHand, WriteHand;
    assert f.content[..f.pos] + (WriteHand(w) + (f.fifo + d)) == f.content[..f.pos] + (WriteHand(w) + f.fifo) + d;
  }

  lemma GetKeepsBytes(f: Handle, n: nat, w: Worker)
    requires BytesOk(f, w) && !f.writer && n <= |f.fifo| && ReadHand(w) == []
    ensures BytesOk(GotOut(f, n), w)
  {
    hide Splice, ReadHand, WriteHand;
    assert f.taken + f.fifo[..n] + (f.fifo[n..] + []) == f.taken + (f.fifo + []);
  }

  /** Bookkeeping that BytesOk does not look at. */
  lemma SameBytes(f: Handle, f': Handle, w: Worker, w': Worker)
    requires BytesOk(f, w) && ReadHand(w') == ReadHand(w) && WriteHand(w') == WriteHand(w)
    requires f'.writer == f.writer && f'.cap == f.cap && f'.fifo == f.fifo && f'.initial == f.initial && f'.content == f.content
    requires f'.pos == f.pos && f'.short == f.short && f'.accepted == f.accepted && f'.taken == f.taken
    ensures BytesOk(f', w')
  {
    hide Splice, ReadHand, WriteHand;
  }

  lemma CallKeepsBytes(f: Handle, c: Call, queued: nat, w: Worker)
    requires BytesOk(f, w) && RequestOk(f, queued, w) && Enabled(f, c)
    ensures BytesOk(Called(f, c), w) && queued == 0 && !Handling(w)
  {
    hide BytesOk;
    match c
    case PutFast(d) => PutKeepsBytes(f, d, w);
    case GetFast(n) => GetKeepsBytes(f, n, w);
    case FinishPut =>
      var d := f.phase.req.data;
      if PutFits(f, |d|) {
        PutKeepsBytes(f, d, w);
        SameBytes(PutIn(f, d).(accepted := f.accepted + d), Called(f, c), w, w);
      } else {
        SameBytes(f, Called(f, c), w, w);
      }
    case FinishGet =>
      var n := Min(f.phase.req.size, |f.fifo|);
      GetKeepsBytes(f, n, w);
      SameBytes(GotOut(f, n), Called(f, c), w, w);
    case _ => SameBytes(f, Called(f, c), w, w);
  }

  lemma CallKeepsRequest(f: Handle, c: Call, queued: nat, w: Worker)
    requires RequestOk(f, queued, w) && Enabled(f, c)
    ensures RequestOk(Called(f, c), queued, w)
  {
  }

  lemma CallKeepsLife(f: Handle, c: Call, queued: nat, slot: bool, w: Worker)
    requires LifeOk(f, slot, w) && WorkOk(f, slot, w) && RequestOk(f, queued, w) && Enabled(f, c)
    ensures LifeOk(Called(f, c), slot, w) && WorkOk(Called(f, c), slot, w)
  {
  }

  /** A caller's step keeps its handle in order, and its request is not in the queue. */
  lemma HandleKeeps(f: Handle, c: Call, queued: nat, slot: bool, w: Worker)
    requires HandleOk(f, queued, slot, w) && Enabled(f, c)
    ensures HandleOk(Called(f, c), queued, slot, w) && queued == 0 && !Handling(w)
  {
    hide BytesOk, Called, RequestOk, LifeOk, WorkOk, Handling;
    CallKeepsBytes(f, c, queued, w);
    CallKeepsRequest(f, c, queued, w);
    CallKeepsLife(f, c, queued, slot, w);
  }

  predicate AtMost(w: Worker, h: nat) {
    w.Poll? || w.Sweep? || w.h == h
  }

  /** A step on one handle, and on the worker at most as far as it concerns that handle, keeps the whole state in order
      if it keeps that handle in order. */
  lemma OneHandle(s: State, h: nat, f': Handle, w': Worker)
    requires Inv(s) && h in s.files && AtMost(s.worker, h) && AtMost(w', h)
    requires HandleOk(f', Queued(s.queue, h), SlotOf(s.slots, h), Local(w', h))
    requires Queued(s.queue, h) > 0 ==> f'.phase == s.files[h].phase
    ensures Inv(s.(files := s.files[h := f'], worker := w'))
  {
    hide HandleOk, Queued, SlotOf;
    var s' := s.(files := s.files[h := f'], worker := w');
    forall k | k in s'.files ensures Ok(s', k) {
      if k != h { assert Ok(s, k); }
    }
    forall i | 0 <= i < |s'.queue| && s'.queue[i].Ask?
      ensures s'.queue[i].h in s'.files && s'.files[s'.queue[i].h].phase == Waiting(s'.queue[i].req)
    {
      QueuedFound(s.queue, i);
    }
  }

  lemma CallKeeps(s: State, h: nat, c: Call)
    requires Inv(s) && h in s.files && Enabled(s.files[h], c)
    ensures Inv(s.(files := s.files[h := Called(s.files[h], c)]))
  {
    hide HandleOk, Queued, SlotOf, Called, QueueOk, SlotsOk;
    assert Ok(s, h);
    HandleKeeps(s.files[h], c, Queued(s.queue, h), SlotOf(s.slots, h), Local(s.worker, h));
    var s' := s.(files := s.files[h := Called(s.files[h], c)]);
    forall k | k in s'.files ensures Ok(s', k) {
      if k != h { assert Ok(s, k); }
    }
    QueueUntouched(s, s', h);
    SlotsUntouched(s, s');
  }

  lemma QueueUntouched(s: State, s': State, h: nat)
    requires QueueOk(s) && Queued(s.queue, h) == 0 && s'.queue == s.queue
    requires forall k :: k in s.files && k != h ==> k in s'.files && s'.files[k] == s.files[k]
    ensures QueueOk(s')
  {
    hide Queued;
    forall i | 0 <= i < |s'.queue| && s'.queue[i].Ask?
      ensures s'.queue[i].h in s'.files && s'.files[s'.queue[i].h].phase == Waiting(s'.queue[i].req)
    {
      QueuedFound(s.queue, i);
    }
  }

  lemma SlotsUntouched(s: State, s': State)
    requires SlotsOk(s) && s'.slots == s.slots && s.files.Keys <= s'.files.Keys
    ensures SlotsOk(s')
  {
    forall i | 0 <= i < 8 && s'.slots[i].Some? ensures s'.slots[i].value in s'.files {
      assert s.slots[i].value in s.files.Keys;
    }
  }

  lemma SendKeeps(s: State, a: Action, s': State)
    requires Inv(s) && (a.Send? || a.SendOther?) && CallerStep(s, a, s')
    ensures Inv(s')
  {
    hide Queued, SlotOf, BytesOk, LifeOk, WorkOk;
    var m := s'.queue[|s.queue|];
    forall k | k in s'.files ensures Ok(s', k) {
      assert Ok(s, k);
      QueuedAppend(s.queue, m, k);
      if a.Send? && k == a.h {
        SentHandle(s.files[k], Queued(s.queue, k), SlotOf(s.slots, k), Local(s.worker, k));
      }
    }
    forall i | 0 <= i < |s'.queue| && s'.queue[i].Ask?
      ensures s'.queue[i].h in s'.files && s'.files[s'.queue[i].h].phase == Waiting(s'.queue[i].req)
    {
      if i < |s.queue| { assert s'.queue[i] == s.queue[i]; QueuedFound(s.queue, i); }
    }
    SlotsUntouched(s, s');
  }

  lemma SentHandle(f: Handle, queued: nat, slot: bool, w: Worker)
    requires HandleOk(f, queued, slot, w) && f.phase.Asking?
    ensures HandleOk(f.(phase := Waiting(f.phase.req), requests := f.requests + 1), queued + 1, slot, w) && queued == 0
  {
    hide BytesOk;
    SameBytes(f, f.(phase := Waiting(f.phase.req), requests := f.requests + 1), w, w);
  }

  lemma AllocateKeeps(s: State, a: Action, s': State)
    requires Inv(s) && a.Allocate? && CallerStep(s, a, s')
    ensures Inv(s')
  {
    QueuedNone(s.queue, a.h);
    forall k | k in s'.files ensures Ok(s', k) {
      if k != a.h { assert Ok(s, k); }
    }
    SlotsUntouched(s, s');
  }

  lemma CallerKeeps(s: State, a: Action, s': State)
    requires Inv(s) && CallerStep(s, a, s')
    ensures Inv(s')
  {
    hide Inv, HandleOk, Called;
    match a
    case Allocate(_, _, _) => AllocateKeeps(s, a, s');
    case Caller(h, c) => CallKeeps(s, h, c);
    case Send(_) => SendKeeps(s, a, s');
    case SendOther => SendKeeps(s, a, s');
    case SendRefused(h) => CallKeeps(s, h, GiveUp);
    case _ =>
  }

  /** The worker's f_write moves its chunk from the hand to the file. */
  lemma WroteBytes(f: Handle, w: Worker, w': Worker, bw: nat)
    requires BytesOk(f, w) && f.writer && (w.SweepHand? || w.DrainHand?) && bw <= |w.chunk|
    requires WriteHand(w') == ReadHand(w') == []
    ensures BytesOk(Wrote(f, w.chunk, bw), w')
  {
    hide Splice;
    var c, d := f.content[..f.pos], w.chunk[..bw];
    SpliceOn(f.initial, c, d);
    SpliceOn(f.initial, c + d, []);
    if bw == |w.chunk| {
      assert c + d + ([] + f.fifo) == c + (w.chunk + f.fifo);
    }
  }

  /** A chunk moves from the FIFO into the worker's hand. */
  lemma TookBytes(f: Handle, n: nat, w: Worker, w': Worker)
    requires BytesOk(f, w) && f.writer && n <= |f.fifo| && WriteHand(w) == ReadHand(w) == ReadHand(w') == []
    requires WriteHand(w') == f.fifo[..n]
    ensures BytesOk(f.(fifo := f.fifo[n..]), w')
  {
    hide Splice, WriteHand, ReadHand;
    assert f.content[..f.pos] + (f.fifo[..n] + f.fifo[n..]) == f.content[..f.pos] + ([] + f.fifo);
  }

  lemma SweepTakes(f: Handle, queued: nat, i: nat, idx: nat, h: nat)
    requires HandleOk(f, queued, true, Poll) && GetFits(f, 1024)
    ensures HandleOk(f.(fifo := f.fifo[1024..]), queued, true, SweepHand(i, idx, h, f.fifo[..1024]))
  {
    hide BytesOk;
    TookBytes(f, 1024, Poll, SweepHand(i, idx, h, f.fifo[..1024]));
  }

  lemma DrainTakes(f: Handle, queued: nat, slot: bool, n: nat, w: Worker)
    requires HandleOk(f, queued, slot, w) && w.Drain? && n <= |f.fifo|
    ensures HandleOk(f.(fifo := f.fifo[n..]), queued, slot, DrainHand(w.h, w.req, w.idx, f.fifo[..n]))
  {
    hide BytesOk;
    TookBytes(f, n, w, DrainHand(w.h, w.req, w.idx, f.fifo[..n]));
  }

  lemma WroteHandle(f: Handle, queued: nat, slot: bool, w: Worker, w': Worker, bw: nat)
    requires HandleOk(f, queued, slot, w) && (w.SweepHand? || w.DrainHand?) && bw <= |w.chunk|
    requires w' == if w.SweepHand? then Poll else Drain(w.h, w.req, w.idx + 1)
    requires f.pos <= |f.content|
    ensures HandleOk(Wrote(f, w.chunk, bw), queued, slot, w')
  {
    WroteBytes(f, w, w', bw);
    hide BytesOk, Splice;
  }

  lemma ReceivedHandle(f: Handle, queued: nat, slot: bool, h: nat)
    requires HandleOk(f, queued, slot, Poll) && queued > 0 && f.phase.Waiting?
    ensures HandleOk(f, queued - 1, slot, Serve(h, f.phase.req))
  {
    hide BytesOk;
    SameBytes(f, f, Poll, Serve(h, f.phase.req));
  }

  lemma OpenedHandle(f: Handle, queued: nat, slot: bool, w: Worker, content: seq<byte>, slot': bool)
    requires HandleOk(f, queued, slot, w) && w.Serve? && w.req == OpenReq && (slot' ==> f.writer)
    ensures !slot && !f.slotted
    ensures HandleOk(f.(life := Open, initial := content, content := content, pos := 0, slotted := slot'), queued, slot', Reply(w.h, OpenReq))
    ensures HandleOk(f.(life := Failed), queued, slot, Reply(w.h, OpenReq))
  {
    SpliceNothing(content);
    hide Splice;
  }

  lemma SpliceNothing(b: seq<byte>)
    ensures Splice(b, 0, []) == b && b[..0] == []
  {
  }

  /** The worker begins, or ends at once, what a request asks. */
  lemma ServedHandle(f: Handle, queued: nat, slot: bool, w: Worker)
    requires HandleOk(f, queued, slot, w) && w.Serve?
    ensures w.req.ReadReq? ==> HandleOk(f, queued, slot, Fill(w.h, w.req, 0))
    ensures w.req.WriteReq? || w.req == CloseReq ==> slot ==> HandleOk(f, queued, slot, Drain(w.h, w.req, 0))
    ensures w.req.WriteReq? ==> HandleOk(f, queued, slot, Reply(w.h, w.req))
    ensures w.req == CloseReq && !slot ==> HandleOk(f.(life := Closed), queued, slot, Reply(w.h, w.req))
  {
    hide BytesOk;
    SameBytes(f, f, w, Fill(w.h, w.req, 0));
    SameBytes(f, f, w, Drain(w.h, w.req, 0));
    SameBytes(f, f, w, Reply(w.h, w.req));
    SameBytes(f, f.(life := Closed), w, Reply(w.h, w.req));
  }

  lemma DrainedHandle(f: Handle, queued: nat, slot: bool, w: Worker)
    requires HandleOk(f, queued, slot, w) && w.Drain?
    ensures w.req.WriteReq? ==> HandleOk(f, queued, slot, Reply(w.h, w.req))
    ensures w.req == CloseReq && f.fifo == [] ==> HandleOk(f.(life := Closed), queued, false, Reply(w.h, w.req))
  {
    hide BytesOk;
    SameBytes(f, f, w, Reply(w.h, w.req));
    SameBytes(f, f.(life := Closed), w, Reply(w.h, w.req));
  }

  lemma FilledBytes(f: Handle, n: nat, w: Worker, w': Worker)
    requires BytesOk(f, w) && !f.writer && f.pos + n <= |f.content| && |f.fifo| + n < f.cap
    requires WriteHand(w) == ReadHand(w) == WriteHand(w') == [] && ReadHand(w') == f.content[f.pos..f.pos + n]
    ensures BytesOk(f.(pos := f.pos + n), w')
  {
    hide Splice, WriteHand, ReadHand;
    var d := f.content[f.pos..f.pos + n];
    SliceJoin(f.content, 0, f.pos, f.pos + n);
    assert f.taken + (f.fifo + d) == f.taken + (f.fifo + []) + d;
  }

  /** One turn of the read loop: a chunk that fits is fetched, or there is no room, no more of the file, or no turn left. */
  lemma FilledHandle(f: Handle, queued: nat, slot: bool, w: Worker, n: nat)
    requires HandleOk(f, queued, slot, w) && w.Fill?
    requires n == Min(Min(f.cap - 1 - |f.fifo|, 1024), |f.content| - f.pos)
    ensures n > 0 ==> HandleOk(f.(pos := f.pos + n), queued, slot, FillHand(w.h, w.req, w.idx, f.content[f.pos..f.pos + n]))
    ensures n == 0 || w.idx >= 64 ==> HandleOk(f, queued, slot, Reply(w.h, w.req))
  {
    hide BytesOk;
    assert BytesOk(f, w) && |f.fifo| < f.cap && f.pos <= |f.content| by { BytesBounds(f, w); }
    if n > 0 {
      FilledBytes(f, n, w, FillHand(w.h, w.req, w.idx, f.content[f.pos..f.pos + n]));
    }
    SameBytes(f, f, w, Reply(w.h, w.req));
  }

  lemma BytesBounds(f: Handle, w: Worker)
    requires BytesOk(f, w)
    ensures |ReadHand(w)| + |f.fifo| < f.cap && f.pos <= |f.content|
  {
  }

  /** The worker's own Put of what it read never fails. */
  lemma StoredHandle(f: Handle, queued: nat, slot: bool, w: Worker)
    requires HandleOk(f, queued, slot, w) && w.FillHand?
    ensures PutFits(f, |w.chunk|)
    ensures HandleOk(PutIn(f, w.chunk), queued, slot, Fill(w.h, w.req, w.idx + 1))
  {
    hide Splice;
  }

  lemma PostedHandle(f: Handle, queued: nat, slot: bool, w: Worker)
    requires HandleOk(f, queued, slot, w) && w.Reply?
    ensures HandleOk(f.(sem := f.sem + 1, posts := f.posts + 1), queued, slot, Poll) && queued == 0
  {
    hide BytesOk;
    SameBytes(f, f.(sem := f.sem + 1, posts := f.posts + 1), w, Poll);
  }

  lemma ReceiveKeeps(s: State, s': State)
    requires Inv(s) && WorkerStep(s, Receive, s')
    ensures Inv(s')
  {
    hide HandleOk, SlotOf;
    var m := s.queue[0];
    forall k | k in s'.files ensures Ok(s', k) {
      assert Ok(s, k);
      if m.Ask? && k == m.h {
        ReceivedHandle(s.files[k], Queued(s.queue, k), SlotOf(s.slots, k), k);
      }
    }
    forall i | 0 <= i < |s'.queue| && s'.queue[i].Ask?
      ensures s'.queue[i].h in s'.files && s'.files[s'.queue[i].h].phase == Waiting(s'.queue[i].req)
    {
      assert s'.queue[i] == s.queue[i + 1];
    }
    SlotsUntouched(s, s');
  }

  /** A worker step that touches no handle. */
  lemma WorkerMoves(s: State, w': Worker)
    requires Inv(s) && (s.worker.Poll? || s.worker.Sweep?) && (w'.Poll? || w'.Sweep?)
    ensures Inv(s.(worker := w'))
  {
    hide HandleOk, SlotOf, Queued;
    var s' := s.(worker := w');
    forall k | k in s'.files ensures Ok(s', k) {
      assert Ok(s, k);
    }
  }

  lemma SweepKeeps(s: State, s': State)
    requires Inv(s) && WorkerStep(s, SweepStep, s')
    ensures Inv(s')
  {
    hide HandleOk, Queued, Inv;
    var i, idx := s.worker.i, s.worker.idx;
    if i >= |s.slots| || s.slots[i].None? || idx == 64 {
      WorkerMoves(s, s'.worker);
    } else {
      var h := s.slots[i].value;
      var f := s.files[h];
      HandleAt(s, h);
      if GetFits(f, 1024) {
        SweepTakes(f, Queued(s.queue, h), i, idx, h);
        OneHandle(s, h, f.(fifo := f.fifo[1024..]), SweepHand(i, idx, h, f.fifo[..1024]));
      } else {
        WorkerMoves(s, s'.worker);
      }
    }
  }

  lemma HandleAt(s: State, h: nat)
    requires Inv(s) && h in s.files
    ensures HandleOk(s.files[h], Queued(s.queue, h), SlotOf(s.slots, h), Local(s.worker, h))
    ensures s.files[h].pos <= |s.files[h].content|
  {
    hide Queued, SlotOf;
    assert Ok(s, h);
  }

  lemma WriteKeeps(s: State, a: Action, s': State)
    requires Inv(s) && a.WriteChunk? && WorkerStep(s, a, s')
    ensures Inv(s')
  {
    hide HandleOk, Queued, SlotOf, Inv;
    var w, h := s.worker, s.worker.h;
    HandleAt(s, h);
    WroteHandle(s.files[h], Queued(s.queue, h), SlotOf(s.slots, h), w, Local(s'.worker, h), a.bw);
    OneHandle(s, h, Wrote(s.files[h], w.chunk, a.bw), s'.worker);
  }

  lemma SlotGiven(slots: seq<Option<nat>>, i: nat, h: nat, k: nat)
    requires i < |slots| && slots[i].None?
    ensures SlotOf(slots[i := Some(h)], k) <==> k == h || SlotOf(slots, k)
  {
    var slots' := slots[i := Some(h)];
    assert slots'[i] == Some(h);
    if SlotOf(slots, k) {
      var j :| 0 <= j < |slots| && slots[j] == Some(k);
      assert slots'[j] == Some(k);
    }
  }

  lemma OpenKeeps(s: State, a: Action, s': State)
    requires Inv(s) && a.ServeOpen? && WorkerStep(s, a, s')
    ensures Inv(s')
  {
    hide HandleOk, Queued, SlotOf;
    var w, h := s.worker, s.worker.h;
    var f := s.files[h];
    HandleAt(s, h);
    var slot' := s'.files[h].slotted;
    OpenedHandle(f, Queued(s.queue, h), SlotOf(s.slots, h), w, a.content, a.ok && f.writer && None in s.slots);
    if !a.ok || !f.writer || None !in s.slots {
      OneHandle(s, h, s'.files[h], Reply(h, OpenReq));
    } else {
      var i: nat :| i < |s.slots| && s.slots[i] == None && s'.slots == s.slots[i := Some(h)];
      forall k | k in s'.files ensures Ok(s', k) {
        SlotGiven(s.slots, i, h, k);
        if k != h { assert Ok(s, k); }
      }
      forall j | 0 <= j < 8 ensures s.slots[j] != Some(h) {
        if s.slots[j] == Some(h) { InSlots(s.slots, j, h); }
      }
    }
  }

  lemma InSlots(slots: seq<Option<nat>>, j: nat, h: nat)
    requires j < |slots| && slots[j] == Some(h)
    ensures SlotOf(slots, h)
  {
  }

  lemma ServeKeeps(s: State, s': State)
    requires Inv(s) && WorkerStep(s, ServeStep, s')
    ensures Inv(s')
  {
    hide HandleOk, Queued, SlotOf, Inv;
    var w, h := s.worker, s.worker.h;
    HandleAt(s, h);
    ServedHandle(s.files[h], Queued(s.queue, h), SlotOf(s.slots, h), w);
    assert s.files == s.files[h := s.files[h]];
    OneHandle(s, h, s'.files[h], s'.worker);
  }

  lemma SlotFreed(slots: seq<Option<nat>>, h: nat, k: nat)
    ensures SlotOf(Freed(slots, h), k) <==> k != h && SlotOf(slots, k)
  {
    if k != h && SlotOf(slots, k) {
      var j :| 0 <= j < |slots| && slots[j] == Some(k);
      assert Freed(slots, h)[j] == Some(k);
    }
    if SlotOf(Freed(slots, h), k) {
      var j :| 0 <= j < |slots| && Freed(slots, h)[j] == Some(k);
      assert slots[j] == Some(k);
    }
  }

  lemma DrainKeeps(s: State, s': State)
    requires Inv(s) && WorkerStep(s, DrainStep, s')
    ensures Inv(s')
  {
    hide HandleOk, Queued, SlotOf, Freed;
    var w, h := s.worker, s.worker.h;
    var f := s.files[h];
    HandleAt(s, h);
    var n := Min(|f.fifo|, 1024);
    DrainTakes(f, Queued(s.queue, h), SlotOf(s.slots, h), n, w);
    DrainedHandle(f, Queued(s.queue, h), SlotOf(s.slots, h), w);
    if n > 0 && (w.req == CloseReq || w.idx < 64) {
      OneHandle(s, h, s'.files[h], s'.worker);
    } else if w.req != CloseReq {
      DrainsWrites(f, Queued(s.queue, h), SlotOf(s.slots, h), w);
      assert s.files == s.files[h := f];
      OneHandle(s, h, f, s'.worker);
    } else {
      CloseKeeps(s, s', h);
    }
  }

  lemma DrainsWrites(f: Handle, queued: nat, slot: bool, w: Worker)
    requires HandleOk(f, queued, slot, w) && w.Drain? && w.req != CloseReq
    ensures w.req.WriteReq?
  {
  }

  lemma CloseKeeps(s: State, s': State, h: nat)
    requires Inv(s) && s.worker.Drain? && s.worker.h == h && h in s.files && s.worker.req == CloseReq && s.files[h].fifo == []
    requires s' == s.(files := s.files[h := s.files[h].(life := Closed)], slots := Freed(s.slots, h), worker := Reply(h, CloseReq))
    ensures Inv(s')
  {
    hide HandleOk, Queued, SlotOf;
    HandleAt(s, h);
    DrainedHandle(s.files[h], Queued(s.queue, h), SlotOf(s.slots, h), s.worker);
    forall k | k in s'.files ensures Ok(s', k) {
      SlotFreed(s.slots, h, k);
      if k != h { assert Ok(s, k); }
    }
  }

  lemma FillKeeps(s: State, s': State)
    requires Inv(s) && WorkerStep(s, FillStep, s')
    ensures Inv(s')
  {
    hide HandleOk, Queued, SlotOf, Inv;
    var w, h := s.worker, s.worker.h;
    var f := s.files[h];
    HandleAt(s, h);
    var n := Min(Min(f.cap - 1 - |f.fifo|, 1024), |f.content| - f.pos);
    FilledHandle(f, Queued(s.queue, h), SlotOf(s.slots, h), w, n);
    assert s.files == s.files[h := s.files[h]];
    OneHandle(s, h, s'.files[h], s'.worker);
  }

  lemma StorePostKeeps(s: State, a: Action, s': State)
    requires Inv(s) && (a.StoreChunk? || a.Post?) && WorkerStep(s, a, s')
    ensures Inv(s')
  {
    hide HandleOk, Queued, SlotOf, Inv;
    var w, h := s.worker, s.worker.h;
    HandleAt(s, h);
    if a.StoreChunk? {
      StoredHandle(s.files[h], Queued(s.queue, h), SlotOf(s.slots, h), w);
    } else {
      PostedHandle(s.files[h], Queued(s.queue, h), SlotOf(s.slots, h), w);
    }
    OneHandle(s, h, s'.files[h], s'.worker);
  }

  lemma WorkerKeeps(s: State, a: Action, s': State)
    requires Inv(s) && WorkerStep(s, a, s')
    ensures Inv(s')
  {
    hide Inv, HandleOk, Opened;
    match a
    case Receive => ReceiveKeeps(s, s');
    case StartSweep => WorkerMoves(s, s'.worker);
    case SweepStep => SweepKeeps(s, s');
    case WriteChunk(_, _) => WriteKeeps(s, a, s');
    case ServeOpen(_, _) => OpenKeeps(s, a, s');
    case ServeStep => ServeKeeps(s, s');
    case DrainStep => DrainKeeps(s, s');
    case FillStep => FillKeeps(s, s');
    case StoreChunk => StorePostKeeps(s, a, s');
    case Post => StorePostKeeps(s, a, s');
    case _ =>
  }

  ghost predicate IsRun(run: seq<State>, acts: seq<Action>) {
    && |run| == |acts| + 1 && Init(run[0])
    && forall i {:trigger acts[i]} :: 0 <= i < |acts| ==> Step(run[i], acts[i], run[i + 1])
  }

  lemma InitOk(s: State)
    requires Init(s)
    ensures Inv(s)
  {
  }

  lemma {:induction false} RunKeeps(run: seq<State>, acts: seq<Action>, n: nat)
    requires IsRun(run, acts) && n < |run|
    ensures Inv(run[n])
  {
    hide Inv, CallerStep, WorkerStep;
    if n == 0 {
      InitOk(run[0]);
    } else {
      RunKeeps(run, acts, n - 1);
      var a := acts[n - 1];
      if CallerStep(run[n - 1], a, run[n]) {
        CallerKeeps(run[n - 1], a, run[n]);
      } else {
        WorkerKeeps(run[n - 1], a, run[n]);
      }
    }
  }

  lemma SpliceOnNothing(c: seq<byte>)
    ensures Splice([], 0, c) == c
  {
  }

  /** Handles with a file open for writing. */
  ghost function Writers(s: State): set<nat> {
    set h | h in s.files && s.files[h].writer && s.files[h].life == Open
  }

  /** While fewer than eight files are open for writing, the worker has a slot for the next one. */
  lemma SlotForNext(s: State)
    requires Inv(s) && |Writers(s)| < 8
    ensures None in s.slots
  {
    hide HandleOk, Queued;
    if None !in s.slots {
      SlotsAreWriters(s, 8);
      FullSlots(s, 8);
      SubsetSize(Held(s.slots, 8), Writers(s));
    }
  }

  /** The handles in the first `n` slots. */
  ghost function Held(slots: seq<Option<nat>>, n: nat): set<nat>
    requires n <= |slots|
  {
    set i | 0 <= i < n && slots[i].Some? :: slots[i].value
  }

  lemma SlotsAreWriters(s: State, n: nat)
    requires Inv(s) && n <= |s.slots|
    ensures Held(s.slots, n) <= Writers(s)
  {
    hide Queued;
    forall h | h in Held(s.slots, n) ensures h in Writers(s) {
      var i :| 0 <= i < n && s.slots[i] == Some(h);
      assert h in s.files;
      HandleAt(s, h);
    }
  }

  lemma {:induction false} FullSlots(s: State, n: nat)
    requires Inv(s) && n <= |s.slots| && None !in s.slots
    ensures |Held(s.slots, n)| == n
  {
    if n > 0 {
      FullSlots(s, n - 1);
      var h := s.slots[n - 1].value;
      assert forall i :: 0 <= i < n - 1 ==> s.slots[i] != s.slots[n - 1];
      assert Held(s.slots, n) == Held(s.slots, n - 1) + {h};
    } else {
      assert Held(s.slots, 0) == {};
    }
  }

  /** A write-mode open that succeeds while fewer than eight files are open for writing gets its slot. */
  lemma OpenGetsSlot(s: State, a: Action, s': State)
    requires Inv(s) && a.ServeOpen? && a.ok && WorkerStep(s, a, s')
    requires s.files[s.worker.h].writer && |Writers(s)| < 8
    ensures s'.files[s.worker.h].slotted
  {
    hide Inv;
    SlotForNext(s);
  }

  /** At no step up to `n` are more than eight files open for writing. */
  ghost predicate FewWriters(run: seq<State>, n: nat)
    requires n < |run|
  {
    forall k {:trigger Writers(run[k])} :: 0 <= k <= n ==> |Writers(run[k])| <= 8
  }

  /** Every write up to `n` finds a free cluster left over, and stays below the largest size of a file. */
  ghost predicate Roomy(run: seq<State>, acts: seq<Action>, n: nat)
    requires n <= |acts| < |run|
  {
    forall k {:trigger acts[k]} :: 0 <= k < n ==> LeavesRoom(run[k], acts[k])
  }

  /** A write leaves a cluster free, and stays below the largest size of a file. */
  predicate LeavesRoom(s: State, a: Action) {
    a.WriteChunk? && HasHand(s) ==> a.free > 0 && |s.files[s.worker.h].content| + |s.worker.chunk| <= 0xFFFF_FFFF
  }

  predicate HasHand(s: State) {
    (s.worker.SweepHand? || s.worker.DrainHand?) && s.worker.h in s.files
  }

  ghost predicate NoneShort(s: State) {
    forall h {:trigger s.files[h]} :: h in s.files ==> !s.files[h].short
  }

  lemma CallStaysLong(s: State, a: Action, s': State)
    requires NoneShort(s) && CallerStep(s, a, s')
    ensures NoneShort(s')
  {
  }

  lemma WorkStaysLong(s: State, a: Action, s': State)
    requires NoneShort(s) && WorkerStep(s, a, s')
    requires LeavesRoom(s, a)
    ensures NoneShort(s')
  {
    hide Splice, SlotOf, Freed;
  }

  /** With room on the disk, no write is short. */
  lemma {:induction false} RoomyRun(run: seq<State>, acts: seq<Action>, n: nat)
    requires IsRun(run, acts) && n < |run| && Roomy(run, acts, n)
    ensures NoneShort(run[n])
  {
    hide CallerStep, WorkerStep, NoneShort;
    if n == 0 {
      NothingYet(run[0]);
    } else {
      RoomyRun(run, acts, n - 1);
      var a := acts[n - 1];
      if CallerStep(run[n - 1], a, run[n]) {
        CallStaysLong(run[n - 1], a, run[n]);
      } else {
        WorkStaysLong(run[n - 1], a, run[n]);
      }
    }
  }

  lemma NothingYet(s: State)
    requires Init(s)
    ensures NoneShort(s) && AllSlotted(s)
  {
  }

  /** Every file that was opened for writing got a slot. */
  ghost predicate AllSlotted(s: State) {
    forall h {:trigger s.files[h]} :: h in s.files && s.files[h].writer && (s.files[h].life == Open || s.files[h].life == Closed) ==>
      s.files[h].slotted
  }

  lemma CallerSlots(s: State, a: Action, s': State)
    requires AllSlotted(s) && CallerStep(s, a, s')
    ensures AllSlotted(s')
  {
  }

  lemma WorkerSlots(s: State, a: Action, s': State)
    requires Inv(s) && AllSlotted(s) && WorkerStep(s, a, s') && |Writers(s')| <= 8
    ensures AllSlotted(s')
  {
    hide Inv, Splice, SlotOf, Freed;
    if a.ServeOpen? && a.ok && s.files[s.worker.h].writer {
      OpenFillsSlots(s, a, s');
      OpenGetsSlot(s, a, s');
    } else if (s.worker.Serve? || s.worker.Drain?) && s.worker.h in s.files {
      ServedIsOpen(s);
    }
  }

  /** The handle of an open request is not open yet; that of a close request is. */
  lemma ServedIsOpen(s: State)
    requires Inv(s) && (s.worker.Serve? || s.worker.Drain?) && s.worker.h in s.files
    ensures s.files[s.worker.h].life == if s.worker.Serve? && s.worker.req == OpenReq then Fresh else Open
  {
    hide Splice, Queued, SlotOf;
    HandleAt(s, s.worker.h);
  }

  lemma OpenFillsSlots(s: State, a: Action, s': State)
    requires Inv(s) && a.ServeOpen? && a.ok && WorkerStep(s, a, s') && s.files[s.worker.h].writer && |Writers(s')| <= 8
    ensures |Writers(s)| < 8
  {
    hide Inv;
    var h := s.worker.h;
    ServedIsOpen(s);
    assert Writers(s') == Writers(s) + {h};
  }

  lemma {:induction false} SlottedRun(run: seq<State>, acts: seq<Action>, n: nat)
    requires IsRun(run, acts) && n < |run| && FewWriters(run, n)
    ensures AllSlotted(run[n])
  {
    hide Inv, CallerStep, WorkerStep, AllSlotted;
    if n == 0 {
      NothingYet(run[0]);
    } else {
      SlottedRun(run, acts, n - 1);
      var a := acts[n - 1];
      if CallerStep(run[n - 1], a, run[n]) {
        CallerSlots(run[n - 1], a, run[n]);
      } else {
        RunKeeps(run, acts, n - 1);
        assert |Writers(run[n])| <= 8;
        WorkerSlots(run[n - 1], a, run[n]);
      }
    }
  }

  /** Write-behind, at every step of every run: as long as the disk has room, the bytes written to the file, the chunk in
      the worker's hand and the FIFO are together the bytes that the caller handed over, in order. */
  lemma WriteConservation(run: seq<State>, acts: seq<Action>, n: nat, h: nat)
    requires IsRun(run, acts) && n < |run| && h in run[n].files && run[n].files[h].writer && Roomy(run, acts, n)
    ensures var f := run[n].files[h];
            f.pos <= |f.content| && f.content[..f.pos] + WriteHand(Local(run[n].worker, h)) + f.fifo == f.accepted
    ensures var f := run[n].files[h]; f.content == Splice(f.initial, 0, f.content[..f.pos])
  {
    hide Splice, WriteHand, ReadHand, Queued, SlotOf, RequestOk, LifeOk, WorkOk, Inv;
    RunKeeps(run, acts, n);
    RoomyRun(run, acts, n);
    HandleAt(run[n], h);
    var f, w := run[n].files[h], Local(run[n].worker, h);
    assert f.content[..f.pos] + WriteHand(w) + f.fifo == f.content[..f.pos] + (WriteHand(w) + f.fifo);
  }

  /** With at most eight files open for writing and room on the disk, a file whose close was answered holds exactly the
      bytes handed over, laid over what it held when it was opened. */
  lemma ClosedFile(run: seq<State>, acts: seq<Action>, n: nat, h: nat)
    requires IsRun(run, acts) && n < |run| && h in run[n].files && run[n].files[h].writer && run[n].files[h].life == Closed
    requires FewWriters(run, n) && Roomy(run, acts, n)
    ensures run[n].files[h].content == Splice(run[n].files[h].initial, 0, run[n].files[h].accepted)
    ensures run[n].files[h].initial == [] ==> run[n].files[h].content == run[n].files[h].accepted
  {
    hide Splice, Queued, SlotOf, Inv, FewWriters, Roomy;
    RunKeeps(run, acts, n);
    RoomyRun(run, acts, n);
    SlottedRun(run, acts, n);
    HandleAt(run[n], h);
    var f, w := run[n].files[h], Local(run[n].worker, h);
    assert f.slotted && !f.short;
    assert WriteHand(w) == [] && f.fifo == [];
    assert f.content[..f.pos] + ([] + []) == f.content[..f.pos];
    SpliceOnNothing(f.accepted);
  }

  /** Without a slot, nothing that was handed over reaches the file: all of it is left in the FIFO when the file is closed. */
  lemma UnslottedFile(run: seq<State>, acts: seq<Action>, n: nat, h: nat)
    requires IsRun(run, acts) && n < |run| && h in run[n].files && run[n].files[h].writer
    requires run[n].files[h].life == Closed && !run[n].files[h].slotted && Roomy(run, acts, n)
    ensures run[n].files[h].content == run[n].files[h].initial && run[n].files[h].fifo == run[n].files[h].accepted
  {
    hide Splice, Queued, SlotOf, Inv, Roomy;
    RunKeeps(run, acts, n);
    RoomyRun(run, acts, n);
    HandleAt(run[n], h);
    var f, w := run[n].files[h], Local(run[n].worker, h);
    assert f.pos == 0 && WriteHand(w) == [];
    SpliceNothing(f.initial);
    assert f.content[..0] + ([] + f.fifo) == f.fifo;
  }

  /** Reading, at every step of every run: the bytes returned so far are a prefix of the file, followed by the FIFO and by
      the chunk that the worker holds; and that chunk always fits into the FIFO. */
  lemma ReadPrefix(run: seq<State>, acts: seq<Action>, n: nat, h: nat)
    requires IsRun(run, acts) && n < |run| && h in run[n].files && !run[n].files[h].writer
    ensures var f := run[n].files[h];
            && f.pos <= |f.content| && f.content == f.initial && f.taken <= f.content
            && f.taken + (f.fifo + ReadHand(Local(run[n].worker, h))) == f.content[..f.pos]
            && (Local(run[n].worker, h).FillHand? ==> PutFits(f, |run[n].worker.chunk|))
  {
    hide Splice, Queued, SlotOf, Inv, RequestOk, LifeOk;
    RunKeeps(run, acts, n);
    HandleAt(run[n], h);
    var f, w := run[n].files[h], Local(run[n].worker, h);
    assert f.content == f.content[..f.pos] + f.content[f.pos..];
    assert f.taken <= f.content[..f.pos];
  }

  /** A read that asked the worker returns nothing only when everything has been returned. */
  lemma EmptyReadAtEnd(run: seq<State>, acts: seq<Action>, n: nat, h: nat)
    requires IsRun(run, acts) && n < |acts| && acts[n] == Caller(h, FinishGet) && CallerStep(run[n], acts[n], run[n + 1])
    requires run[n].files[h].phase.req.size > 0 && run[n + 1].files[h].taken == run[n].files[h].taken
    ensures run[n].files[h].fifo == [] && run[n].files[h].taken == run[n].files[h].content
  {
    hide Splice, Queued, SlotOf, Inv;
    RunKeeps(run, acts, n);
    HandleAt(run[n], h);
    var f, w := run[n].files[h], Local(run[n].worker, h);
    var k := Min(f.phase.req.size, |f.fifo|);
    assert f.taken + f.fifo[..k] == f.taken;
    assert |f.fifo[..k]| == 0;
    assert f.content[..f.pos] == f.content;
    assert f.taken + ([] + []) == f.taken;
  }

  /** The protocol, at every step of every run: a handle's request is in one place only; between calls each accepted request
      has been posted once; and once a close has been answered, neither the queue, nor a slot, nor the worker knows the handle. */
  lemma Protocol(run: seq<State>, acts: seq<Action>, n: nat, h: nat)
    requires IsRun(run, acts) && n < |run| && h in run[n].files
    ensures var s, f := run[n], run[n].files[h];
            && Queued(s.queue, h) + (if Handling(Local(s.worker, h)) then 1 else 0) + f.sem <= 1
            && f.posts <= f.requests <= f.posts + 1
            && (!f.phase.Waiting? ==> f.requests == f.posts && f.sem == 0)
    ensures var s, f := run[n], run[n].files[h];
            f.phase == Woken(CloseReq) || f.phase == Gone ==>
              && Queued(s.queue, h) == 0 && !SlotOf(s.slots, h) && (s.worker.Poll? || s.worker.Sweep? || s.worker.h != h)
  {
    hide Splice, Queued, SlotOf, Inv, BytesOk;
    RunKeeps(run, acts, n);
    HandleAt(run[n], h);
  }
}
