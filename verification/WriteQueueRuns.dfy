/** The theorems about whole runs of the write queue. */
module WriteQueueRuns {
  import opened Prelude
  import opened WriteQueue
  import opened WriteQueueMoves
  import opened WriteQueueSafety

  // ----- The remaining parts of the invariant -----

  lemma ExecutedOnlyGrows(cfg: Config, s: State, l: Label, t: nat)
    requires Enabled(cfg, s, l) && t < |s.lives|
    ensures t < |Apply(cfg, s, l).lives| && s.lives[t].executed <= Apply(cfg, s, l).lives[t].executed
    ensures Executes(s, l, t) ==> Apply(cfg, s, l).lives[t].executed > 0
  {
    AfterAt(cfg, s, l, t);
    RecordDelta(cfg, s, l, t);
  }

  lemma StepKeepsDone(cfg: Config, s: State, l: Label)
    requires Enabled(cfg, s, l) && DoneOk(s)
    ensures DoneOk(Apply(cfg, s, l))
  {
    var s' := Apply(cfg, s, l);
    forall w, i | 0 <= w < |s'.workers| && s'.workers[w].InSession? && 0 <= i < |s'.workers[w].done|
      ensures s'.workers[w].done[i] < |s'.lives| && s'.lives[s'.workers[w].done[i]].executed > 0
    {
      var t := s'.workers[w].done[i];
      if s'.workers[w] == s.workers[w] || (l.Execute? && l.w == w && i < |s.workers[w].done|) {
        assert s.workers[w].InSession? && s.workers[w].done[i] == t;
        ExecutedOnlyGrows(cfg, s, l, t);
      } else {
        assert l.Execute? && l.w == w && Executes(s, l, t);
        ExecutedOnlyGrows(cfg, s, l, t);
      }
    }
  }

  /** How the number of queued copies and the counters change together. */
  lemma QueueSizeDelta(cfg: Config, s: State, l: Label)
    requires Enabled(cfg, s, l)
    ensures MetricsAfter(cfg, s, l).total + |s.sh.queue| + |Leaving(s, l, Any)| + s.sh.metrics.completed + s.sh.metrics.failed
            + Apply(cfg, s, l).surplus
            == s.sh.metrics.total + |QueueAfter(cfg, s, l)| + |Entering(s, l, Any)|
               + MetricsAfter(cfg, s, l).completed + MetricsAfter(cfg, s, l).failed
               + s.surplus + (Apply(cfg, s, l).cleared - s.cleared)
  {
  }

  lemma StepKeepsBalance(cfg: Config, s: State, l: Label)
    requires Enabled(cfg, s, l) && Balance(s)
    ensures Balance(Apply(cfg, s, l))
  {
    HeldSizeMoves(cfg, s, l);
    QueueSizeDelta(cfg, s, l);
  }

  lemma PriorityWhenNeverRetried(cfg: Config, s: State, l: Label, t: nat)
    requires Enabled(cfg, s, l) && t < |s.lives| && CachedOk(s, t) && AttemptsOk(cfg, s, t)
    requires TaskAfter(cfg, s, l, t).retryCount == 0
    ensures s.sh.tasks[t].retryCount == 0 && TaskAfter(cfg, s, l, t).priority == s.sh.tasks[t].priority
  {
    RetryCountDelta(cfg, s, l, t);
    if MergesInto(s, l, t) {
      MergeTargetIsFresh(s, l, t);
    }
  }

  /** When a producer's younger task is popped, its older one of the same priority is not in the queue. */
  lemma PopTakesOlderFirst(cfg: Config, s: State, w: nat, a: nat, b: nat)
    requires Enabled(cfg, s, Pop(w, b)) && SequencesOk(s) && a < b < |s.lives|
    requires Accounted(s, a) && s.lives[a].enqueued && s.sh.tasks[a].priority == s.sh.tasks[b].priority
    ensures a !in s.sh.queue && (s.lives[a].popped || s.lives[a].dropped)
  {
    assert s.sh.tasks[a].sequence < s.sh.tasks[b].sequence;
    assert a in s.sh.queue ==> Precedes(s.sh.tasks[b], s.sh.tasks[a]);
  }

  lemma StepKeepsPair(cfg: Config, s: State, l: Label, a: nat, b: nat)
    requires Enabled(cfg, s, l) && ProducersOk(s) && SequencesOk(s) && a < b < |s.lives|
    requires PairOk(s, a, b) && TaskOk(cfg, s, a) && TaskOk(cfg, s, b)
    ensures b < |Apply(cfg, s, l).lives| == |Apply(cfg, s, l).sh.tasks| && PairOk(Apply(cfg, s, l), a, b)
  {
    var s' := Apply(cfg, s, l);
    AfterAt(cfg, s, l, a);
    AfterAt(cfg, s, l, b);
    RecordDelta(cfg, s, l, a);
    RecordDelta(cfg, s, l, b);
    TasksGrow(cfg, s, l);
    PendingDelta(cfg, s, l, a);
    if s'.sh.tasks[a].retryCount == 0 && s'.sh.tasks[b].retryCount == 0 && s'.lives[b].popped && s'.lives[a].enqueued
       && s.lives[a].producer == s.lives[b].producer && s'.sh.tasks[a].priority == s'.sh.tasks[b].priority
    {
      PriorityWhenNeverRetried(cfg, s, l, a);
      PriorityWhenNeverRetried(cfg, s, l, b);
      assert !Pushes(s, l, a);
      if !s.lives[b].popped {
        PopTakesOlderFirst(cfg, s, l.w, a, b);
      }
    }
  }

  lemma NewPairOk(cfg: Config, s: State, l: Label, a: nat)
    requires Enabled(cfg, s, l) && l.Create? && ProducersOk(s) && a < |s.lives|
    ensures |s.lives| < |Apply(cfg, s, l).lives| == |Apply(cfg, s, l).sh.tasks| && PairOk(Apply(cfg, s, l), a, |s.lives|)
  {
    TasksGrow(cfg, s, l);
    AfterAt(cfg, s, l, a);
    RecordDelta(cfg, s, l, a);
  }

  lemma StepKeepsTask(cfg: Config, s: State, l: Label, t: nat)
    requires Enabled(cfg, s, l) && Shape(s) && DoneOk(s) && t < |s.lives| && TaskOk(cfg, s, t)
    ensures t < |Apply(cfg, s, l).lives| && t < |Apply(cfg, s, l).sh.tasks| && TaskOk(cfg, Apply(cfg, s, l), t)
  {
    StepKeepsUntouched(cfg, s, l, t);
    StepKeepsOneStatus(cfg, s, l, t);
    StepKeepsCached(cfg, s, l, t);
    StepKeepsData(cfg, s, l, t);
    StepKeepsAccounted(cfg, s, l, t);
    StepKeepsAttempts(cfg, s, l, t);
  }

  /** Every step of every thread keeps the whole invariant. */
  lemma StepKeepsInv(cfg: Config, s: State, l: Label)
    requires Inv(cfg, s) && Enabled(cfg, s, l)
    ensures Inv(cfg, Apply(cfg, s, l))
  {
    var s' := Apply(cfg, s, l);
    StepKeepsShape(cfg, s, l);
    StepKeepsDone(cfg, s, l);
    StepKeepsBalance(cfg, s, l);
    TasksGrow(cfg, s, l);
    forall t | 0 <= t < |s'.lives| ensures TaskOk(cfg, s', t) {
      if t < |s.lives| {
        StepKeepsTask(cfg, s, l, t);
      } else {
        NewTaskOk(cfg, s, l);
      }
    }
    forall a, b | 0 <= a < b < |s'.lives| ensures PairOk(s', a, b) {
      if b < |s.lives| {
        StepKeepsPair(cfg, s, l, a, b);
      } else {
        NewPairOk(cfg, s, l, a);
      }
    }
  }

  lemma InitialInv(cfg: Config, s: State)
    requires Initial(s)
    ensures Inv(cfg, s)
  {
    InitialShape(s);
    IdleHoldsNothing(Any, s.workers, 0);
  }

  lemma {:induction false} RunKeepsInv(cfg: Config, s: State, run: seq<Label>)
    requires Inv(cfg, s) && CanRun(cfg, s, run)
    ensures Inv(cfg, After(cfg, s, run))
    decreases |run|
  {
    if run != [] {
      StepKeepsInv(cfg, s, run[0]);
      RunKeepsInv(cfg, Apply(cfg, s, run[0]), run[1..]);
    }
  }

  lemma ReachableInv(cfg: Config, s0: State, run: seq<Label>)
    requires Initial(s0) && CanRun(cfg, s0, run)
    ensures Inv(cfg, After(cfg, s0, run))
  {
    InitialInv(cfg, s0);
    RunKeepsInv(cfg, s0, run);
  }

  // ----- Theorems -----

  /** The task can still be executed or reported: it is queued or in a worker's hands. */
  predicate IsLive(s: State, t: nat) {
    s.sh.queue[t] + Held(Any, s.workers, t) > 0
  }

  /** The submissions that this task carries are gone without a trace. */
  predicate IsLost(s: State, t: nat)
    requires t < |s.lives|
  {
    var life := s.lives[t];
    !IsPending(s, t) && !life.absorbed && !life.dropped && !IsLive(s, t) && life.executed == 0 && life.reported == 0
  }

  /**
   No merged write is lost, exactly when no keyed submission is refused. In every interleaving, the
   submissions that a task carries are lost if and only if the push of that task found the queue full.
   */
  lemma LostIffRefused(cfg: Config, s0: State, run: seq<Label>, t: nat)
    requires Initial(s0) && CanRun(cfg, s0, run) && t < |After(cfg, s0, run).lives|
    ensures IsLost(After(cfg, s0, run), t) <==> After(cfg, s0, run).lives[t].refused
  {
    ReachableInv(cfg, s0, run);
    assert TaskOk(cfg, After(cfg, s0, run), t);
  }

  /** A task is first executed with the in-order dictionary update of every submission that it will ever carry. */
  lemma FirstExecutionSeesAllMerges(cfg: Config, s0: State, run: seq<Label>, t: nat)
    requires Initial(s0) && CanRun(cfg, s0, run) && t < |After(cfg, s0, run).lives|
    ensures var life := After(cfg, s0, run).lives[t];
            life.executed > 0 ==> life.firstData == Some(Fold(life.merged))
  {
    ReachableInv(cfg, s0, run);
    assert TaskOk(cfg, After(cfg, s0, run), t);
  }

  /** Whatever is in the merge cache has not been attempted and is not in any batch. */
  lemma CachedIsNotInABatch(cfg: Config, s0: State, run: seq<Label>, k: string, w: nat)
    requires Initial(s0) && CanRun(cfg, s0, run)
    requires var s := After(cfg, s0, run);
             k in s.sh.cache && w < |s.workers| && s.sh.cache[k] < |s.lives|
    ensures var s := After(cfg, s0, run);
            s.sh.cache[k] !in Part(Past, s.workers[w]) && s.lives[s.sh.cache[k]].executed == 0
  {
    ReachableInv(cfg, s0, run);
    var s := After(cfg, s0, run);
    var t := s.sh.cache[k];
    assert TaskOk(cfg, s, t);
    if t in Part(Past, s.workers[w]) {
      HeldWitness(Past, s.workers, w, t);
    }
  }

  /** Whatever is in the merge cache will still run, is about to be pushed, or was refused; it was neither cleared nor given up. */
  lemma CachedIsAccountedFor(cfg: Config, s0: State, run: seq<Label>, k: string)
    requires Initial(s0) && CanRun(cfg, s0, run) && k in After(cfg, s0, run).sh.cache
    ensures var s := After(cfg, s0, run);
            var t := s.sh.cache[k];
            && t < |s.lives| && !s.lives[t].dropped && s.lives[t].reported == 0
            && (IsPending(s, t) || IsLive(s, t) || s.lives[t].refused)
  {
    ReachableInv(cfg, s0, run);
    var s := After(cfg, s0, run);
    assert TaskOk(cfg, s, s.sh.cache[k]);
  }

  /** Bounded attempts: no task is executed more than `max_retries` times (once when that is below one), failed commits included. */
  lemma AttemptsAreBounded(cfg: Config, s0: State, run: seq<Label>, t: nat)
    requires Initial(s0) && CanRun(cfg, s0, run) && t < |After(cfg, s0, run).lives|
    ensures After(cfg, s0, run).lives[t].executed <= AttemptLimit(cfg)
  {
    ReachableInv(cfg, s0, run);
    assert TaskOk(cfg, After(cfg, s0, run), t);
  }

  /**
   Task conservation. The counters balance in every reachable state once failed commits and clears
   are on the books; so the plain balance holds exactly when no failed commit put a task back.
   */
  lemma TasksAreConserved(cfg: Config, s0: State, run: seq<Label>)
    requires Initial(s0) && CanRun(cfg, s0, run)
    ensures var s := After(cfg, s0, run);
            && s.sh.metrics.total + s.surplus
               == |s.sh.queue| + HeldSize(s.workers) + s.sh.metrics.completed + s.sh.metrics.failed + s.cleared
            && (s.sh.metrics.total
                == |s.sh.queue| + HeldSize(s.workers) + s.sh.metrics.completed + s.sh.metrics.failed + s.cleared
                <==> s.surplus == 0)
  {
    ReachableInv(cfg, s0, run);
  }

  /** FIFO: of two never-retried tasks of one producer and one priority, the younger is not popped before the older. */
  lemma SameProducerIsFifo(cfg: Config, s0: State, run: seq<Label>, a: nat, b: nat)
    requires Initial(s0) && CanRun(cfg, s0, run)
    requires var s := After(cfg, s0, run);
             && a < b < |s.lives| && |s.lives| == |s.sh.tasks| && s.lives[a].producer == s.lives[b].producer
             && s.lives[a].enqueued && s.lives[b].popped
             && s.sh.tasks[a].retryCount == 0 && s.sh.tasks[b].retryCount == 0
             && s.sh.tasks[a].priority == s.sh.tasks[b].priority
    ensures var s := After(cfg, s0, run); s.lives[a].popped || s.lives[a].dropped
  {
    ReachableInv(cfg, s0, run);
    assert PairOk(After(cfg, s0, run), a, b);
  }

  // ----- Empty merge keys -----

  ghost predicate NoEmptyKey(s: State) {
    "" !in s.sh.cache && forall p :: p in s.producers && s.producers[p].AtMerge? ==> s.producers[p].key != ""
  }

  lemma StepKeepsNoEmptyKey(cfg: Config, s: State, l: Label)
    requires Enabled(cfg, s, l) && NoEmptyKey(s)
    ensures NoEmptyKey(Apply(cfg, s, l))
  {
  }

  lemma {:induction false} RunKeepsNoEmptyKey(cfg: Config, s: State, run: seq<Label>)
    requires NoEmptyKey(s) && CanRun(cfg, s, run)
    ensures NoEmptyKey(After(cfg, s, run))
    decreases |run|
  {
    if run != [] {
      StepKeepsNoEmptyKey(cfg, s, run[0]);
      RunKeepsNoEmptyKey(cfg, Apply(cfg, s, run[0]), run[1..]);
    }
  }

  /**
   An empty merge key is no key. In every interleaving nothing is ever cached under the empty text or waits to be
   merged under it, and a submission with that key, or with none, goes straight to its push; one with any other
   key goes to the merge section first.
   */
  lemma EmptyKeysNeverMerge(cfg: Config, s0: State, run: seq<Label>, l: Label)
    requires Initial(s0) && CanRun(cfg, s0, run) && l.Create? && Enabled(cfg, After(cfg, s0, run), l)
    ensures "" !in After(cfg, s0, run).sh.cache
    ensures var s := After(cfg, s0, run);
            var pending := Apply(cfg, s, l).producers[l.p];
            if l.mergeKey == None || l.mergeKey == Some("") then pending == AtPush(|s.sh.tasks|)
            else pending == AtMerge(|s.sh.tasks|, l.mergeKey.value)
  {
    RunKeepsNoEmptyKey(cfg, s0, run);
  }

  // ----- Batch size -----

  /** What a worker gathers, with the task that it has just popped. */
  function Gathered(w: Worker): nat {
    if w.Gathering? then |w.batch| + (if w.popped.Some? then 1 else 0) else 0
  }

  ghost predicate BatchesBounded(cfg: Config, s: State) {
    forall w :: 0 <= w < |s.workers| ==> Gathered(s.workers[w]) <= if cfg.batchSize < 0 then 0 else cfg.batchSize
  }

  lemma StepKeepsBatchesBounded(cfg: Config, s: State, l: Label)
    requires Enabled(cfg, s, l) && BatchesBounded(cfg, s)
    ensures BatchesBounded(cfg, Apply(cfg, s, l))
  {
  }

  lemma {:induction false} RunKeepsBatchesBounded(cfg: Config, s: State, run: seq<Label>)
    requires BatchesBounded(cfg, s) && CanRun(cfg, s, run)
    ensures BatchesBounded(cfg, After(cfg, s, run))
    decreases |run|
  {
    if run != [] {
      StepKeepsBatchesBounded(cfg, s, run[0]);
      RunKeepsBatchesBounded(cfg, Apply(cfg, s, run[0]), run[1..]);
    }
  }

  /** In every interleaving no worker gathers more tasks than the batch size, and it can pop as long as it has fewer. */
  lemma BatchesAreBounded(cfg: Config, s0: State, run: seq<Label>, w: nat, t: nat)
    requires Initial(s0) && CanRun(cfg, s0, run) && w < |s0.workers|
    ensures var s := After(cfg, s0, run);
            && w < |s.workers| && Gathered(s.workers[w]) <= (if cfg.batchSize < 0 then 0 else cfg.batchSize)
            && (s.workers[w].Gathering? && s.workers[w].popped.None? && IsLeast(s.sh, t) ==>
                  (Enabled(cfg, s, Pop(w, t)) <==> Gathered(s.workers[w]) < cfg.batchSize))
  {
    RunKeepsBatchesBounded(cfg, s0, run);
    ReachableInv(cfg, s0, run);
    WorkersStay(cfg, s0, run);
  }

  lemma StepKeepsWorkerCount(cfg: Config, s: State, l: Label)
    requires |s.lives| == |s.sh.tasks|
    ensures |Apply(cfg, s, l).workers| == |s.workers|
  {
  }

  lemma {:induction false} WorkersStay(cfg: Config, s: State, run: seq<Label>)
    requires CanRun(cfg, s, run)
    ensures |After(cfg, s, run).workers| == |s.workers|
    decreases |run|
  {
    if run != [] {
      StepKeepsWorkerCount(cfg, s, run[0]);
      WorkersStay(cfg, Apply(cfg, s, run[0]), run[1..]);
    }
  }
}
