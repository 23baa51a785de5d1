/**
 The order keys of queued tasks never change. Retrying raises the priority of a task object, and
 after a failed commit it does so for tasks that may already be queued again; a heap whose keys
 change in place no longer pops its least element. That this cannot happen is what makes the pop
 step of the state machine, which takes the least queued task, the right model of a heap.
 */
module WriteQueueHeap {
  import opened Prelude
  import opened WriteQueue
  import opened WriteQueueMoves
  import opened WriteQueueSafety
  import opened WriteQueueRuns

  // ----- Copies in the finished part of an open session -----

  function DoneOf(w: Worker): seq<nat> {
    if w.InSession? then w.done else []
  }

  function InDone(ws: seq<Worker>, t: nat): nat {
    Sum(seq(|ws|, i requires 0 <= i < |ws| => Count(DoneOf(ws[i]), t)))
  }

  lemma InDoneUpdate(ws: seq<Worker>, i: nat, x: Worker, t: nat)
    requires i < |ws|
    ensures InDone(ws[i := x], t) + Count(DoneOf(ws[i]), t) == InDone(ws, t) + Count(DoneOf(x), t)
  {
    var ns := seq(|ws|, i requires 0 <= i < |ws| => Count(DoneOf(ws[i]), t));
    var xs := ws[i := x];
    SumUpdate(ns, i, Count(DoneOf(x), t));
    assert ns[i := Count(DoneOf(x), t)] == seq(|xs|, i requires 0 <= i < |xs| => Count(DoneOf(xs[i]), t));
  }

  lemma InDoneZero(ws: seq<Worker>, t: nat)
    requires forall w :: 0 <= w < |ws| ==> t !in DoneOf(ws[w])
    ensures InDone(ws, t) == 0
  {
    SumZero(seq(|ws|, i requires 0 <= i < |ws| => Count(DoneOf(ws[i]), t)));
  }

  lemma DoneAfter(s: State, l: Label, t: nat)
    requires IsWorkerStep(l) && IsWorker(s, l.w)
    ensures Count(DoneOf(WorkerAfter(s, l)), t)
            == if l.Commit? then 0 else Count(DoneOf(s.workers[l.w]), t) + if Executes(s, l, t) && s.workers[l.w].InSession? then 1 else 0
  {
    var worker := s.workers[l.w];
    if l.Execute? && AtTask(s, l.w) && worker.InSession? {
      assert multiset(worker.done + [worker.todo[0]]) == multiset(worker.done) + multiset{worker.todo[0]};
    }
  }

  lemma InDoneMoves(cfg: Config, s: State, l: Label, t: nat)
    requires Enabled(cfg, s, l)
    ensures InDone(WorkersAfter(s, l), t) + (if l.Commit? then Count(DoneOf(s.workers[l.w]), t) else 0)
            == InDone(s.workers, t) + if Executes(s, l, t) then 1 else 0
  {
    if IsWorkerStep(l) {
      DoneAfter(s, l, t);
      InDoneUpdate(s.workers, l.w, WorkerAfter(s, l), t);
    }
  }

  // ----- The invariant -----

  /** A task that has never failed is in one place at most. */
  predicate InOnePlace(s: State, t: nat)
    requires t < |s.sh.tasks|
  {
    s.sh.tasks[t].retryCount == 0 ==> s.sh.queue[t] + Held(Any, s.workers, t) + InDone(s.workers, t) <= 1
  }

  /** A task that has failed and has attempts left already has its raised priority. */
  predicate Raised(cfg: Config, task: Task) {
    0 < task.retryCount < cfg.maxRetries ==> task.priority <= -LevelValue(High)
  }

  ghost predicate HeapInv(cfg: Config, s: State) {
    Inv(cfg, s) && forall t :: 0 <= t < |s.sh.tasks| ==> InOnePlace(s, t) && Raised(cfg, s.sh.tasks[t])
  }

  lemma NotExecutedNotDone(s: State, t: nat)
    requires DoneOk(s) && t < |s.lives| && s.lives[t].executed == 0
    ensures InDone(s.workers, t) == 0
  {
    forall w | 0 <= w < |s.workers| ensures t !in DoneOf(s.workers[w]) {
      assert s.workers[w].InSession? ==>
          forall i :: 0 <= i < |s.workers[w].done| ==> s.lives[s.workers[w].done[i]].executed > 0;
    }
    InDoneZero(s.workers, t);
  }

  lemma PushedIsNowhere(s: State, l: Label, t: nat)
    requires t < |s.lives| == |s.sh.tasks| && ProducersOk(s) && DoneOk(s) && Untouched(s, t) && Pushes(s, l, t)
    ensures s.sh.queue[t] == 0 && Held(Any, s.workers, t) == 0 && InDone(s.workers, t) == 0
  {
    PushedIsFresh(s, l, t);
    NotExecutedNotDone(s, t);
  }

  /** A task that does not fail in a step is in no more places after it, unless the step pushes it. */
  lemma PlacesDelta(cfg: Config, s: State, l: Label, t: nat)
    requires Enabled(cfg, s, l) && t < |s.sh.tasks| && !FailsAttempt(s, l, t)
    ensures QueueAfter(cfg, s, l)[t] + Held(Any, WorkersAfter(s, l), t) + InDone(WorkersAfter(s, l), t)
            <= s.sh.queue[t] + Held(Any, s.workers, t) + InDone(s.workers, t) + if Pushes(s, l, t) then 1 else 0
  {
    QueueDelta(cfg, s, l, t);
    HeldMoves(cfg, s, l, Any, t);
    InDoneMoves(cfg, s, l, t);
    EnteringOne(s, l, t);
    LeavingOne(s, l, t);
  }

  lemma EnteringOne(s: State, l: Label, t: nat)
    ensures Count(Entering(s, l, Any), t) <= if l.Pop? && l.t == t then 1
                                             else if l.Commit? && IsWorker(s, l.w) then Count(DoneOf(s.workers[l.w]), t) else 0
  {
  }

  lemma LeavingOne(s: State, l: Label, t: nat)
    ensures Executes(s, l, t) ==> Count(Leaving(s, l, Any), t) == 1
  {
  }

  lemma StepKeepsPlaces(cfg: Config, s: State, l: Label, t: nat)
    requires Enabled(cfg, s, l) && Shape(s) && DoneOk(s) && t < |s.sh.tasks| && TaskOk(cfg, s, t) && InOnePlace(s, t)
    ensures t < |Apply(cfg, s, l).sh.tasks| && InOnePlace(Apply(cfg, s, l), t)
  {
    AfterAt(cfg, s, l, t);
    RetryCountDelta(cfg, s, l, t);
    if TaskAfter(cfg, s, l, t).retryCount == 0 {
      assert !FailsAttempt(s, l, t);
      PlacesDelta(cfg, s, l, t);
      if Pushes(s, l, t) {
        PushedIsNowhere(s, l, t);
      } else if MergesInto(s, l, t) {
        MergeTargetIsFresh(s, l, t);
      }
    }
  }

  lemma StepKeepsRaised(cfg: Config, s: State, l: Label, t: nat)
    requires t < |s.sh.tasks| && 0 <= s.sh.tasks[t].retryCount && Raised(cfg, s.sh.tasks[t])
    ensures Raised(cfg, TaskAfter(cfg, s, l, t))
  {
  }

  lemma NewTaskIsNowhere(cfg: Config, s: State, l: Label)
    requires Enabled(cfg, s, l) && Shape(s) && DoneOk(s) && l.Create?
    ensures var s', t := Apply(cfg, s, l), |s.sh.tasks|;
            t < |s'.sh.tasks| && InOnePlace(s', t) && Raised(cfg, s'.sh.tasks[t])
  {
    var s', t := Apply(cfg, s, l), |s.sh.tasks|;
    TasksGrow(cfg, s, l);
    assert s'.sh.tasks[t] == NewTask(s, l);
    assert Held(Any, s.workers, t) == 0 && s.sh.queue[t] == 0;
    forall w | 0 <= w < |s.workers| ensures t !in DoneOf(s.workers[w]) {
      assert s.workers[w].InSession? ==> forall i :: 0 <= i < |s.workers[w].done| ==> s.workers[w].done[i] < t;
    }
    InDoneZero(s.workers, t);
  }

  lemma StepKeepsHeapInv(cfg: Config, s: State, l: Label)
    requires HeapInv(cfg, s) && Enabled(cfg, s, l)
    ensures HeapInv(cfg, Apply(cfg, s, l))
  {
    var s' := Apply(cfg, s, l);
    StepKeepsInv(cfg, s, l);
    TasksGrow(cfg, s, l);
    forall t | 0 <= t < |s'.sh.tasks| ensures InOnePlace(s', t) && Raised(cfg, s'.sh.tasks[t]) {
      if t < |s.sh.tasks| {
        assert TaskOk(cfg, s, t);
        StepKeepsPlaces(cfg, s, l, t);
        StepKeepsRaised(cfg, s, l, t);
        AfterAt(cfg, s, l, t);
      } else {
        NewTaskIsNowhere(cfg, s, l);
      }
    }
  }

  lemma {:induction false} RunKeepsHeapInv(cfg: Config, s: State, run: seq<Label>)
    requires HeapInv(cfg, s) && CanRun(cfg, s, run)
    ensures HeapInv(cfg, After(cfg, s, run))
    decreases |run|
  {
    if run != [] {
      StepKeepsHeapInv(cfg, s, run[0]);
      RunKeepsHeapInv(cfg, Apply(cfg, s, run[0]), run[1..]);
    }
  }

  lemma FailingKeepsKey(cfg: Config, s: State, l: Label, t: nat)
    requires HeapInv(cfg, s) && Enabled(cfg, s, l) && t in s.sh.queue && t < |s.sh.tasks| && FailsAttempt(s, l, t)
    ensures FailedAttempt(cfg, s.sh.tasks[t]).priority == s.sh.tasks[t].priority
  {
    assert InOnePlace(s, t) && Raised(cfg, s.sh.tasks[t]) && TaskOk(cfg, s, t);
    assert t in Part(Any, s.workers[l.w]);
    HeldWitness(Any, s.workers, l.w, t);
  }

  /**
   In every interleaving, no step changes the priority or the sequence number of a task while it is
   queued: not a retry after a failed commit, and not a merge.
   */
  lemma QueuedKeysNeverChange(cfg: Config, s0: State, run: seq<Label>, l: Label, t: nat)
    requires Initial(s0) && CanRun(cfg, s0, run)
    requires var s := After(cfg, s0, run); Enabled(cfg, s, l) && t in s.sh.queue && t < |s.sh.tasks|
    ensures var s := After(cfg, s0, run);
            && t < |Apply(cfg, s, l).sh.tasks|
            && Apply(cfg, s, l).sh.tasks[t].priority == s.sh.tasks[t].priority
            && Apply(cfg, s, l).sh.tasks[t].sequence == s.sh.tasks[t].sequence
  {
    var s := After(cfg, s0, run);
    InitialInv(cfg, s0);
    RunKeepsHeapInv(cfg, s0, run);
    AfterAt(cfg, s, l, t);
    SequenceStays(cfg, s, l, t);
    KeyStays(cfg, s, l, t);
  }

  lemma KeyStays(cfg: Config, s: State, l: Label, t: nat)
    requires HeapInv(cfg, s) && Enabled(cfg, s, l) && t in s.sh.queue && t < |s.sh.tasks|
    ensures TaskAfter(cfg, s, l, t).priority == s.sh.tasks[t].priority
  {
    if FailsAttempt(s, l, t) {
      FailingKeepsKey(cfg, s, l, t);
    }
  }
}
