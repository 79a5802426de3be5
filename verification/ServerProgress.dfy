/** The file server never stops: the worker can always go on, every sweep and every request that it serves comes to an end,
    and every queued request is served in turn and posted. */
module ServerProgress {
  import opened Bytes
  import opened FileServer

  /** Steps of the worker, as opposed to steps of the callers. */
  predicate ByWorker(a: Action) {
    !a.Allocate? && !a.Caller? && !a.Send? && !a.SendRefused? && !a.SendOther?
  }

  /** The turn counters of a sweep stay in their bounds. */
  predicate SweepOk(w: Worker) {
    && (w.Sweep? ==> w.i <= 8 && w.idx <= 64)
    && (w.SweepHand? ==> w.i < 8 && w.idx < 64)
  }

  ghost predicate WorkerMoves(s: State) {
    exists a, s' :: WorkerStep(s, a, s')
  }

  lemma CanMove(s: State, a: Action, s': State)
    requires WorkerStep(s, a, s')
    ensures WorkerMoves(s)
  {
  }

  /** In every state of the invariant, the worker has a step. */
  lemma WorkerNeverStuck(s: State)
    requires Inv(s)
    ensures WorkerMoves(s)
  {
    hide Inv, WorkerMoves, Splice, SlotOf, Freed, Opened;
    match s.worker
    case Poll => PollMoves(s);
    case Sweep(i, idx) => SweepMoves(s);
    case SweepHand(i, idx, h, chunk) => HandMoves(s);
    case DrainHand(h, req, idx, chunk) => HandMoves(s);
    case Serve(h, req) => ServeMoves(s);
    case Drain(h, req, idx) => DrainMoves(s);
    case Fill(h, req, idx) => FillMoves(s);
    case FillHand(h, req, idx, chunk) => StoreMoves(s);
    case Reply(h, req) => StoreMoves(s);
  }

  lemma PollMoves(s: State)
    requires s.worker.Poll?
    ensures WorkerMoves(s)
  {
    if s.queue == [] {
      CanMove(s, StartSweep, s.(worker := Sweep(0, 0)));
    } else {
      CanMove(s, Receive, s.(queue := s.queue[1..], worker := if s.queue[0].Ask? then Serve(s.queue[0].h, s.queue[0].req) else Poll));
    }
  }

  lemma SweepMoves(s: State)
    requires Inv(s) && s.worker.Sweep?
    ensures WorkerMoves(s)
  {
    hide Ok, QueueOk;
    var Sweep(i, idx) := s.worker;
    if i >= |s.slots| {
      CanMove(s, SweepStep, s.(worker := Poll));
    } else if s.slots[i].None? || idx == 64 {
      CanMove(s, SweepStep, s.(worker := Sweep(i + 1, 0)));
    } else {
      var h := s.slots[i].value;
      assert h in s.files;
      var f := s.files[h];
      if GetFits(f, 1024) {
        CanMove(s, SweepStep, s.(files := s.files[h := f.(fifo := f.fifo[1024..])], worker := SweepHand(i, idx, h, f.fifo[..1024])));
      } else {
        CanMove(s, SweepStep, s.(worker := Sweep(i + 1, 0)));
      }
    }
  }

  lemma AtHandle(s: State)
    requires Inv(s) && !s.worker.Poll? && !s.worker.Sweep?
    ensures s.worker.h in s.files
    ensures var f, w := s.files[s.worker.h], s.worker;
            f.pos <= |f.content| && |ReadHand(w)| + |f.fifo| < f.cap
            && (w.Drain? || w.DrainHand? ==> w.req == CloseReq || w.req.WriteReq?)
            && (w.Fill? || w.FillHand? ==> w.req.ReadReq?) && (w.FillHand? ==> w.chunk != [])
  {
    hide Splice, Queued, SlotOf;
    HandleAt(s, s.worker.h);
  }

  lemma HandMoves(s: State)
    requires Inv(s) && (s.worker.SweepHand? || s.worker.DrainHand?)
    ensures WorkerMoves(s)
  {
    hide Inv, Splice;
    AtHandle(s);
    var w, f := s.worker, s.files[s.worker.h];
    CanMove(s, WriteChunk(|w.chunk|, 0), s.(files := s.files[w.h := Wrote(f, w.chunk, |w.chunk|)],
            worker := if w.SweepHand? then Sweep(w.i, w.idx + 1) else Drain(w.h, w.req, w.idx + 1)));
  }

  lemma ServeMoves(s: State)
    requires Inv(s) && s.worker.Serve?
    ensures WorkerMoves(s)
  {
    hide Inv, SlotOf;
    AtHandle(s);
    var w, f := s.worker, s.files[s.worker.h];
    match w.req
    case OpenReq => CanMove(s, ServeOpen(false, []), s.(files := s.files[w.h := f.(life := Failed)], worker := Reply(w.h, OpenReq)));
    case ReadReq(_) => CanMove(s, ServeStep, s.(worker := Fill(w.h, w.req, 0)));
    case WriteReq(_) => CanMove(s, ServeStep, s.(worker := if SlotOf(s.slots, w.h) then Drain(w.h, w.req, 0) else Reply(w.h, w.req)));
    case CloseReq =>
      if SlotOf(s.slots, w.h) {
        CanMove(s, ServeStep, s.(worker := Drain(w.h, CloseReq, 0)));
      } else {
        CanMove(s, ServeStep, s.(files := s.files[w.h := f.(life := Closed)], worker := Reply(w.h, CloseReq)));
      }
  }

  lemma DrainMoves(s: State)
    requires Inv(s) && s.worker.Drain?
    ensures WorkerMoves(s)
  {
    hide Inv, Freed;
    AtHandle(s);
    var w, f := s.worker, s.files[s.worker.h];
    var n := Min(|f.fifo|, 1024);
    if n > 0 && (w.req == CloseReq || w.idx < 64) {
      CanMove(s, DrainStep, s.(files := s.files[w.h := f.(fifo := f.fifo[n..])], worker := DrainHand(w.h, w.req, w.idx, f.fifo[..n])));
    } else if w.req == CloseReq {
      CanMove(s, DrainStep, s.(files := s.files[w.h := f.(life := Closed)], slots := Freed(s.slots, w.h), worker := Reply(w.h, CloseReq)));
    } else {
      CanMove(s, DrainStep, s.(worker := Reply(w.h, w.req)));
    }
  }

  lemma FillMoves(s: State)
    requires Inv(s) && s.worker.Fill?
    ensures WorkerMoves(s)
  {
    hide Inv;
    AtHandle(s);
    var w, f := s.worker, s.files[s.worker.h];
    var n := Min(Min(f.cap - 1 - |f.fifo|, 1024), |f.content| - f.pos);
    if w.idx < 64 && n > 0 {
      CanMove(s, FillStep, s.(files := s.files[w.h := f.(pos := f.pos + n)], worker := FillHand(w.h, w.req, w.idx, f.content[f.pos..f.pos + n])));
    } else {
      CanMove(s, FillStep, s.(worker := Reply(w.h, w.req)));
    }
  }

  lemma StoreMoves(s: State)
    requires Inv(s) && (s.worker.FillHand? || s.worker.Reply?)
    ensures WorkerMoves(s)
  {
    hide Inv;
    AtHandle(s);
    var w, f := s.worker, s.files[s.worker.h];
    if w.Reply? {
      CanMove(s, Post, s.(files := s.files[w.h := f.(sem := f.sem + 1, posts := f.posts + 1)], worker := Poll));
    } else {
      assert PutFits(f, |w.chunk|);
      CanMove(s, StoreChunk, s.(files := s.files[w.h := PutIn(f, w.chunk)], worker := Fill(w.h, w.req, w.idx + 1)));
    }
  }

  /** Bytes of a handle's file that are still to be read. */
  function Unread(f: Handle): nat {
    if f.pos <= |f.content| then |f.content| - f.pos else 0
  }

  /** How many steps the worker may still take before it polls the queue. */
  function Rank(s: State): nat {
    match s.worker
    case Poll => 0
    case Sweep(i, idx) => (if i <= 8 then (8 - i) * 130 else 0) + (if idx <= 64 then (64 - idx) * 2 else 0) + 1
    case SweepHand(i, idx, _, _) => (if i <= 8 then (8 - i) * 130 else 0) + (if idx <= 64 then (64 - idx) * 2 else 0)
    case Reply(_, _) => 1
    case Serve(h, _) => if h in s.files then 2 * |s.files[h].fifo| + 2 * Unread(s.files[h]) + 4 else 1
    case Drain(h, _, _) => if h in s.files then 2 * |s.files[h].fifo| + 2 else 1
    case DrainHand(h, _, _, _) => if h in s.files then 2 * |s.files[h].fifo| + 3 else 1
    case Fill(h, _, _) => if h in s.files then 2 * Unread(s.files[h]) + 2 else 1
    case FillHand(h, _, _, _) => if h in s.files then 2 * Unread(s.files[h]) + 3 else 1
  }

  lemma SweepStays(s: State, a: Action, s': State)
    requires SweepOk(s.worker) && WorkerStep(s, a, s') && |s.slots| == 8
    ensures SweepOk(s'.worker)
  {
    hide Splice, SlotOf, Freed;
  }

  lemma SweepRankFalls(s: State, a: Action, s': State)
    requires SweepOk(s.worker) && |s.slots| == 8 && WorkerStep(s, a, s') && (s.worker.Sweep? || s.worker.SweepHand?)
    ensures Rank(s') < Rank(s)
  {
    hide Splice, SlotOf, Freed;
  }

  lemma ServeRankFalls(s: State, a: Action, s': State)
    requires WorkerStep(s, a, s') && (s.worker.Serve? || s.worker.Reply?)
    ensures Rank(s') < Rank(s)
  {
    hide Splice, SlotOf, Freed;
  }

  lemma DrainRankFalls(s: State, a: Action, s': State)
    requires WorkerStep(s, a, s') && (s.worker.Drain? || s.worker.DrainHand?)
    ensures Rank(s') < Rank(s)
  {
    hide Splice, SlotOf, Freed;
  }

  lemma FillRankFalls(s: State, a: Action, s': State)
    requires WorkerStep(s, a, s') && (s.worker.Fill? || s.worker.FillHand?)
    ensures Rank(s') < Rank(s)
  {
    hide Splice, SlotOf, Freed;
  }

  /** Every step of the worker, outside its poll, takes it nearer to the poll. */
  lemma RankFalls(s: State, a: Action, s': State)
    requires Inv(s) && SweepOk(s.worker) && WorkerStep(s, a, s') && !s.worker.Poll?
    ensures Rank(s') < Rank(s)
  {
    hide Inv, Rank, WorkerStep, SweepOk;
    EightSlots(s);
    if s.worker.Serve? || s.worker.Reply? {
      ServeRankFalls(s, a, s');
    } else if s.worker.Drain? || s.worker.DrainHand? {
      DrainRankFalls(s, a, s');
    } else if s.worker.Fill? || s.worker.FillHand? {
      FillRankFalls(s, a, s');
    } else {
      SweepRankFalls(s, a, s');
    }
  }

  /** A step of a caller leaves the worker where it is, and does not touch the file that it is serving. */
  lemma RankStays(s: State, a: Action, s': State)
    requires Inv(s) && CallerStep(s, a, s')
    ensures s'.worker == s.worker && Rank(s') == Rank(s)
    ensures s.queue <= s'.queue
  {
    hide Inv;
    if Handling(s.worker) { ServedWaits(s, a, s'); }
  }

  lemma ServedWaits(s: State, a: Action, s': State)
    requires Inv(s) && CallerStep(s, a, s') && Handling(s.worker)
    ensures s.worker.h in s.files && s.worker.h in s'.files && s'.files[s.worker.h] == s.files[s.worker.h]
  {
    hide Splice, Queued, SlotOf;
    var h := s.worker.h;
    HandleAt(s, h);
    assert s.files[h].phase == Waiting(s.worker.req) && s.files[h].sem == 0;
  }

  /** While a request is served, the worker stays with it until it posts the answer. */
  lemma StaysWithRequest(s: State, a: Action, s': State)
    requires Inv(s) && Handling(s.worker) && WorkerStep(s, a, s')
    ensures if a == Post then s'.worker.Poll? else Handling(s'.worker) && s'.worker.h == s.worker.h
    ensures a == Post ==> s.worker.h in s.files && s.worker.h in s'.files && s'.files[s.worker.h].posts == s.files[s.worker.h].posts + 1
  {
    hide Inv, Splice, SlotOf, Freed;
  }

  lemma StepsDiffer(s: State, a: Action, s': State)
    requires Step(s, a, s')
    ensures if ByWorker(a) then WorkerStep(s, a, s') else CallerStep(s, a, s')
  {
  }

  lemma {:induction false} SweepRun(run: seq<State>, acts: seq<Action>, n: nat)
    requires IsRun(run, acts) && n < |run|
    ensures SweepOk(run[n].worker)
  {
    hide Inv, CallerStep, WorkerStep, SweepOk;
    if n == 0 {
      SweepStart(run[0]);
    } else {
      SweepRun(run, acts, n - 1);
      RunKeeps(run, acts, n - 1);
      StepsDiffer(run[n - 1], acts[n - 1], run[n]);
      if ByWorker(acts[n - 1]) {
        EightSlots(run[n - 1]);
        SweepStays(run[n - 1], acts[n - 1], run[n]);
      } else {
        RankStays(run[n - 1], acts[n - 1], run[n]);
      }
    }
  }

  lemma SweepStart(s: State)
    requires Init(s)
    ensures SweepOk(s.worker)
  {
  }

  lemma EightSlots(s: State)
    requires Inv(s)
    ensures |s.slots| == 8
  {
    hide Ok, QueueOk;
  }

  /** Steps of the worker among the actions `i` to `j - 1`. */
  function WorkerSteps(acts: seq<Action>, i: nat, j: nat): nat
    requires i <= j <= |acts|
    decreases j - i
  {
    if i == j then 0 else WorkerSteps(acts, i, j - 1) + (if ByWorker(acts[j - 1]) then 1 else 0)
  }

  /** The worker polls again before it has taken more steps than its rank. */
  lemma {:induction false} PollsAgain(run: seq<State>, acts: seq<Action>, i: nat, j: nat)
    requires IsRun(run, acts) && i <= j < |run|
    requires forall k {:trigger run[k]} :: i <= k <= j ==> !run[k].worker.Poll?
    ensures Rank(run[j]) + WorkerSteps(acts, i, j) <= Rank(run[i])
    decreases j - i
  {
    hide Inv, CallerStep, WorkerStep, Rank, SweepOk;
    if i < j {
      PollsAgain(run, acts, i, j - 1);
      RunKeeps(run, acts, j - 1);
      SweepRun(run, acts, j - 1);
      StepsDiffer(run[j - 1], acts[j - 1], run[j]);
      if ByWorker(acts[j - 1]) {
        RankFalls(run[j - 1], acts[j - 1], run[j]);
      } else {
        RankStays(run[j - 1], acts[j - 1], run[j]);
      }
    }
  }

  ghost predicate PostedAt(run: seq<State>, acts: seq<Action>, k: nat, h: nat)
    requires k < |acts| < |run|
  {
    acts[k] == Post && Handling(run[k].worker) && run[k].worker.h == h
  }

  /** Unless the answer was posted, the worker is still with the request. */
  lemma {:induction false} StillServing(run: seq<State>, acts: seq<Action>, i: nat, j: nat, h: nat)
    requires IsRun(run, acts) && i <= j < |run| && Handling(run[i].worker) && run[i].worker.h == h
    requires forall k {:trigger PostedAt(run, acts, k, h)} :: i <= k < j ==> !PostedAt(run, acts, k, h)
    ensures Handling(run[j].worker) && run[j].worker.h == h
    decreases j - i
  {
    hide Inv, CallerStep, WorkerStep;
    if i < j {
      StillServing(run, acts, i, j - 1, h);
      RunKeeps(run, acts, j - 1);
      assert !PostedAt(run, acts, j - 1, h);
      StepsDiffer(run[j - 1], acts[j - 1], run[j]);
      if ByWorker(acts[j - 1]) {
        StaysWithRequest(run[j - 1], acts[j - 1], run[j]);
      } else {
        RankStays(run[j - 1], acts[j - 1], run[j]);
      }
    }
  }

  /** Every request that the worker serves is posted: at the latest when the worker has taken as many steps as its rank. */
  lemma ServedIsPosted(run: seq<State>, acts: seq<Action>, i: nat, j: nat, h: nat)
    requires IsRun(run, acts) && i <= j < |run| && Handling(run[i].worker) && run[i].worker.h == h
    requires WorkerSteps(acts, i, j) >= Rank(run[i])
    ensures exists k :: i <= k < j && PostedAt(run, acts, k, h)
  {
    hide Rank, PostedAt, Step, Init;
    if forall k :: i <= k < j ==> !PostedAt(run, acts, k, h) {
      forall k | i <= k <= j ensures !run[k].worker.Poll? { StillServing(run, acts, i, k, h); }
      PollsAgain(run, acts, i, j);
      StillServing(run, acts, i, j, h);
      ServingRank(run[j]);
      assert false;
    }
  }

  lemma ServingRank(s: State)
    requires Handling(s.worker)
    ensures Rank(s) > 0
  {
  }

  /** Messages received among the actions `i` to `j - 1`. */
  function Received(acts: seq<Action>, i: nat, j: nat): nat
    requires i <= j <= |acts|
    decreases j - i
  {
    if i == j then 0 else Received(acts, i, j - 1) + (if acts[j - 1].Receive? then 1 else 0)
  }

  /** At its poll, the worker takes the head of a queue that is not empty; nothing else takes messages. */
  lemma TakesHead(s: State, a: Action, s': State)
    requires WorkerStep(s, a, s')
    ensures a.Receive? ==>
              s.queue != [] && s'.queue == s.queue[1..]
              && (s.queue[0].Ask? ==> s'.worker == Serve(s.queue[0].h, s.queue[0].req))
    ensures !a.Receive? ==> s'.queue == s.queue
    ensures s.worker.Poll? && s.queue != [] ==> a.Receive?
  {
    hide Splice, SlotOf, Freed;
  }

  lemma {:induction false} QueueMovesUp(run: seq<State>, acts: seq<Action>, i: nat, j: nat, p: nat)
    requires IsRun(run, acts) && i <= j < |run| && p < |run[i].queue| && Received(acts, i, j) <= p
    ensures p - Received(acts, i, j) < |run[j].queue| && run[j].queue[p - Received(acts, i, j)] == run[i].queue[p]
    decreases j - i
  {
    hide Inv, CallerStep, WorkerStep;
    if i < j {
      QueueMovesUp(run, acts, i, j - 1, p);
      RunKeeps(run, acts, j - 1);
      StepsDiffer(run[j - 1], acts[j - 1], run[j]);
      if ByWorker(acts[j - 1]) {
        TakesHead(run[j - 1], acts[j - 1], run[j]);
      } else {
        RankStays(run[j - 1], acts[j - 1], run[j]);
      }
    }
  }

  /** A request at position `p` of the queue is served by the receive with that number. */
  lemma {:induction false} QueuedIsServed(run: seq<State>, acts: seq<Action>, i: nat, j: nat, p: nat)
    requires IsRun(run, acts) && i <= j < |run| && p < |run[i].queue| && run[i].queue[p].Ask? && Received(acts, i, j) > p
    ensures exists k :: i <= k < j && acts[k] == Receive && run[k + 1].worker == Serve(run[i].queue[p].h, run[i].queue[p].req)
    decreases j - i
  {
    hide Inv, CallerStep, WorkerStep;
    if Received(acts, i, j - 1) > p {
      QueuedIsServed(run, acts, i, j - 1, p);
    } else {
      QueueMovesUp(run, acts, i, j - 1, p);
      StepsDiffer(run[j - 1], acts[j - 1], run[j]);
      TakesHead(run[j - 1], acts[j - 1], run[j]);
      assert acts[j - 1] == Receive;
    }
  }

  /** Between two receives the worker takes at most its rank in steps, as long as the queue is not empty. */
  lemma {:induction false} ReceivesInTime(run: seq<State>, acts: seq<Action>, i: nat, j: nat)
    requires IsRun(run, acts) && i <= j < |run| && run[i].queue != [] && Received(acts, i, j) == 0
    ensures Rank(run[j]) + WorkerSteps(acts, i, j) <= Rank(run[i]) && run[j].queue != []
    decreases j - i
  {
    hide Inv, CallerStep, WorkerStep, Rank, SweepOk;
    if i < j {
      ReceivesInTime(run, acts, i, j - 1);
      RunKeeps(run, acts, j - 1);
      SweepRun(run, acts, j - 1);
      StepsDiffer(run[j - 1], acts[j - 1], run[j]);
      if ByWorker(acts[j - 1]) {
        TakesHead(run[j - 1], acts[j - 1], run[j]);
        RankFalls(run[j - 1], acts[j - 1], run[j]);
      } else {
        RankStays(run[j - 1], acts[j - 1], run[j]);
      }
    }
  }

  lemma {:induction false} StepsAdd(acts: seq<Action>, i: nat, m: nat, j: nat)
    requires i <= m <= j <= |acts|
    ensures WorkerSteps(acts, i, j) == WorkerSteps(acts, i, m) + WorkerSteps(acts, m, j)
    decreases j - m
  {
    if m < j {
      StepsAdd(acts, i, m, j - 1);
    }
  }

  lemma {:induction false} FirstReceive(acts: seq<Action>, i: nat, j: nat) returns (m: nat)
    requires i <= j <= |acts| && Received(acts, i, j) > 0
    ensures i <= m < j && acts[m] == Receive && Received(acts, i, m) == 0
    decreases j - i
  {
    if Received(acts, i, j - 1) > 0 { m := FirstReceive(acts, i, j - 1); } else { m := j - 1; }
  }

  /** No rank between the states `i` and `j` is above `r`. */
  ghost predicate RanksBelow(run: seq<State>, i: nat, j: nat, r: nat)
    requires j < |run|
  {
    forall k {:trigger Rank(run[k])} :: i <= k <= j ==> Rank(run[k]) <= r
  }

  /** The next receive comes within `r + 1` steps of the worker, and takes the head of the queue. */
  lemma NextReceive(run: seq<State>, acts: seq<Action>, i: nat, j: nat, r: nat) returns (m: nat)
    requires IsRun(run, acts) && i <= j < |run| && run[i].queue != [] && Rank(run[i]) <= r && WorkerSteps(acts, i, j) > r
    ensures i <= m < j && acts[m] == Receive && Received(acts, i, m + 1) == 1 && WorkerSteps(acts, i, m + 1) <= r + 1
    ensures run[i].queue[0].Ask? ==> run[m + 1].worker == Serve(run[i].queue[0].h, run[i].queue[0].req)
  {
    hide Inv, CallerStep, WorkerStep, Rank;
    if Received(acts, i, j) == 0 { ReceivesInTime(run, acts, i, j); }
    m := FirstReceive(acts, i, j);
    ReceivesInTime(run, acts, i, m);
    QueueMovesUp(run, acts, i, m, 0);
    StepsDiffer(run[m], acts[m], run[m + 1]);
    TakesHead(run[m], acts[m], run[m + 1]);
  }

  /** Every request in the queue is posted: if no rank is above `r`, then at the latest when the worker has taken `r + 1`
      steps for each request before it, for its own receive and for its own service. */
  lemma {:induction false} QueuedIsPosted(run: seq<State>, acts: seq<Action>, i: nat, j: nat, p: nat, r: nat)
    requires IsRun(run, acts) && i <= j < |run| && p < |run[i].queue| && run[i].queue[p].Ask? && RanksBelow(run, i, j, r)
    requires WorkerSteps(acts, i, j) >= (p + 2) * (r + 1)
    ensures exists k :: i <= k < j && PostedAt(run, acts, k, run[i].queue[p].h)
    decreases p
  {
    hide Rank, PostedAt, Step, Init;
    assert (p + 2) * (r + 1) == (p + 1) * (r + 1) + (r + 1) && (p + 1) * (r + 1) >= r + 1;
    var m := NextReceive(run, acts, i, j, r);
    StepsAdd(acts, i, m + 1, j);
    var h := run[i].queue[p].h;
    if p == 0 {
      ServedIsPosted(run, acts, m + 1, j, h);
    } else {
      QueueMovesUp(run, acts, i, m + 1, p);
      QueuedIsPosted(run, acts, m + 1, j, p - 1, r);
    }
    var k :| m + 1 <= k < j && PostedAt(run, acts, k, h);
    assert i <= k < j;
  }

  /** The rank has a bound that only the sizes of FIFOs and files enter. */
  lemma RankBound(s: State, fifo: nat, file: nat)
    requires SweepOk(s.worker)
    requires forall h {:trigger s.files[h]} :: h in s.files ==> |s.files[h].fifo| <= fifo && |s.files[h].content| <= file
    ensures Rank(s) <= 1169 + 2 * fifo + 2 * file
  {
  }

  /** An accepted request goes to the end of the queue, which holds 63 at most. */
  lemma SentIsQueued(s: State, h: nat, s': State)
    requires CallerStep(s, Send(h), s')
    ensures h in s.files && |s'.queue| <= 63 && s'.queue == s.queue + [Ask(h, s.files[h].phase.req)]
  {
  }

  lemma MulMonotone(a: nat, b: nat, c: nat)
    requires a <= b
    ensures a * c <= b * c
  {
  }

  /** Every accepted request is posted: within 64 times the bound of the worker's rank, in steps of the worker. */
  lemma AcceptedIsPosted(run: seq<State>, acts: seq<Action>, i: nat, j: nat, h: nat, r: nat)
    requires IsRun(run, acts) && i < j < |run| && acts[i] == Send(h) && RanksBelow(run, i + 1, j, r)
    requires WorkerSteps(acts, i + 1, j) >= 64 * (r + 1)
    ensures exists k :: i < k < j && PostedAt(run, acts, k, h)
  {
    hide Rank, PostedAt, CallerStep, WorkerStep, Init, RanksBelow;
    StepsDiffer(run[i], acts[i], run[i + 1]);
    SentIsQueued(run[i], h, run[i + 1]);
    var p := |run[i].queue|;
    MulMonotone(p + 2, 64, r + 1);
    QueuedIsPosted(run, acts, i + 1, j, p, r);
    var k :| i + 1 <= k < j && PostedAt(run, acts, k, run[i + 1].queue[p].h);
    assert PostedAt(run, acts, k, h);
  }
}
