/** What every interleaving of producers and workers keeps: nothing is lost, attempts are bounded, order and counts hold. */
module WriteQueueSafety {
  import opened Prelude
  import opened WriteQueue
  import opened WriteQueueMoves

  // ----- The invariant of one task -----

  predicate IsPending(s: State, t: nat)
    requires t < |s.lives|
  {
    s.lives[t].producer in s.producers && s.producers[s.lives[t].producer].task == t
  }

  /** A task that was never queued has left no trace. */
  predicate Untouched(s: State, t: nat)
    requires t < |s.lives| && t < |s.sh.tasks|
  {
    var life := s.lives[t];
    !life.enqueued ==>
      && s.sh.queue[t] == 0 && Held(Any, s.workers, t) == 0
      && life.executed == 0 && life.reported == 0 && !life.popped && !life.dropped && s.sh.tasks[t].retryCount == 0
  }

  /** Each task is in exactly one of four conditions: still pending, absorbed by an older task, refused, or queued once. */
  predicate OneStatus(s: State, t: nat)
    requires t < |s.lives|
  {
    var life := s.lives[t];
    && !(life.enqueued && life.refused) && !(life.enqueued && life.absorbed) && !(life.refused && life.absorbed)
    && (IsPending(s, t) <==> !life.enqueued && !life.refused && !life.absorbed)
  }

  /** A task in the merge cache has not been attempted, and no worker has taken it past the cache. */
  ghost predicate CachedOk(s: State, t: nat)
    requires t < |s.lives| && t < |s.sh.tasks|
  {
    forall k :: k in s.sh.cache && s.sh.cache[k] == t ==>
      && Held(Past, s.workers, t) == 0 && s.sh.tasks[t].retryCount == 0 && s.lives[t].executed == 0
      && !s.lives[t].absorbed && !s.lives[t].dropped && s.lives[t].reported == 0
      && (IsPending(s, t) ==> s.producers[s.lives[t].producer].AtPush?)
  }

  /** Until its first execution a task's data is the in-order update of all it carries; then that value is what was executed. */
  predicate DataOk(s: State, t: nat)
    requires t < |s.lives| && t < |s.sh.tasks|
  {
    var life := s.lives[t];
    if life.executed == 0 then life.firstData == None && s.sh.tasks[t].data == Fold(life.merged)
    else life.firstData == Some(Fold(life.merged))
  }

  /** A queued task is somewhere, or has been executed, given up, or cleared. */
  predicate Accounted(s: State, t: nat)
    requires t < |s.lives|
  {
    var life := s.lives[t];
    && (life.enqueued ==>
          s.sh.queue[t] + Held(Any, s.workers, t) > 0 || life.executed > 0 || life.reported > 0 || life.dropped)
    && (life.enqueued && !life.popped && !life.dropped ==> s.sh.queue[t] > 0)
  }

  function AttemptLimit(cfg: Config): int {
    if cfg.maxRetries >= 1 then cfg.maxRetries else 1
  }

  /** Executions so far plus copies that can still be executed: one more than the retries, never above the limit. */
  predicate AttemptsOk(cfg: Config, s: State, t: nat)
    requires t < |s.lives| && t < |s.sh.tasks|
  {
    && 0 <= s.sh.tasks[t].retryCount
    && s.lives[t].executed + s.sh.queue[t] + Held(Runnable, s.workers, t)
       <= 1 + Min(s.sh.tasks[t].retryCount, AttemptLimit(cfg) - 1)
  }

  ghost predicate TaskOk(cfg: Config, s: State, t: nat)
    requires t < |s.lives| && t < |s.sh.tasks|
  {
    && Untouched(s, t) && OneStatus(s, t) && CachedOk(s, t) && DataOk(s, t) && Accounted(s, t) && AttemptsOk(cfg, s, t)
  }

  /** What a session has worked through has been executed. */
  ghost predicate DoneOk(s: State) {
    forall w, i :: 0 <= w < |s.workers| && s.workers[w].InSession? && 0 <= i < |s.workers[w].done| ==>
      s.workers[w].done[i] < |s.lives| && s.lives[s.workers[w].done[i]].executed > 0
  }

  /** Task conservation, with failed commits and clears on the books. */
  predicate Balance(s: State) {
    s.sh.metrics.total + s.surplus
    == |s.sh.queue| + HeldSize(s.workers) + s.sh.metrics.completed + s.sh.metrics.failed + s.cleared
  }

  /** One producer's tasks: an older one is no longer pending, and a younger one never overtakes it. */
  ghost predicate PairOk(s: State, a: nat, b: nat)
    requires a < b < |s.lives| == |s.sh.tasks|
  {
    s.lives[a].producer == s.lives[b].producer ==>
      && !IsPending(s, a)
      && (&& s.lives[a].enqueued && s.lives[b].popped
          && s.sh.tasks[a].retryCount == 0 && s.sh.tasks[b].retryCount == 0
          && s.sh.tasks[a].priority == s.sh.tasks[b].priority
          ==> s.lives[a].popped || s.lives[a].dropped)
  }

  ghost predicate Inv(cfg: Config, s: State) {
    && Shape(s) && DoneOk(s) && Balance(s)
    && (forall t :: 0 <= t < |s.lives| ==> TaskOk(cfg, s, t))
    && (forall a, b :: 0 <= a < b < |s.lives| ==> PairOk(s, a, b))
  }

  // ----- Facts about held copies -----

  lemma HeldWitness(kind: Kind, ws: seq<Worker>, w: nat, t: nat)
    requires w < |ws| && t in Part(kind, ws[w])
    ensures Held(kind, ws, t) > 0
  {
    SumPositive(seq(|ws|, i requires 0 <= i < |ws| => Count(Part(kind, ws[i]), t)), w);
  }

  lemma {:induction false} SumMonotone(xs: seq<nat>, ys: seq<nat>)
    requires |xs| == |ys| && forall i :: 0 <= i < |xs| ==> xs[i] <= ys[i]
    ensures Sum(xs) <= Sum(ys)
  {
    if xs != [] {
      SumMonotone(xs[1..], ys[1..]);
    }
  }

  lemma PartKinds(w: Worker, t: nat)
    ensures Count(Part(Past, w), t) <= Count(Part(Any, w), t)
    ensures Count(Part(Runnable, w), t) <= Count(Part(Any, w), t)
  {
  }

  lemma HeldKinds(ws: seq<Worker>, t: nat)
    ensures Held(Past, ws, t) <= Held(Any, ws, t) && Held(Runnable, ws, t) <= Held(Any, ws, t)
  {
    forall i | 0 <= i < |ws|
      ensures Count(Part(Past, ws[i]), t) <= Count(Part(Any, ws[i]), t)
              && Count(Part(Runnable, ws[i]), t) <= Count(Part(Any, ws[i]), t)
    {
      PartKinds(ws[i], t);
    }
    var any := seq(|ws|, i requires 0 <= i < |ws| => Count(Part(Any, ws[i]), t));
    SumMonotone(seq(|ws|, i requires 0 <= i < |ws| => Count(Part(Past, ws[i]), t)), any);
    SumMonotone(seq(|ws|, i requires 0 <= i < |ws| => Count(Part(Runnable, ws[i]), t)), any);
  }

  /** The task that a worker attempts or rejects is held past the merge cache. */
  lemma AttemptedIsHeld(s: State, l: Label, t: nat)
    requires FailsAttempt(s, l, t) || Executes(s, l, t) || Rejects(s, l, t)
    ensures Held(Past, s.workers, t) > 0 && Held(Any, s.workers, t) > 0
  {
    assert t in Part(Past, s.workers[l.w]);
    HeldWitness(Past, s.workers, l.w, t);
    HeldKinds(s.workers, t);
  }

  // ----- Every step keeps the invariant of every task -----

  /** The task and its life after a step, for a task that existed before it. */
  lemma AfterAt(cfg: Config, s: State, l: Label, t: nat)
    requires |s.lives| == |s.sh.tasks| && t < |s.lives|
    ensures Apply(cfg, s, l).sh.tasks[t] == TaskAfter(cfg, s, l, t)
    ensures Apply(cfg, s, l).lives[t] == LifeAfter(cfg, s, l, t)
  {
  }

  lemma DoneWasExecuted(s: State, l: Label, t: nat)
    requires DoneOk(s) && t < |s.lives| && l.Commit? && t in Entering(s, l, Any)
    ensures s.lives[t].executed > 0
  {
    var i :| 0 <= i < |s.workers[l.w].done| && s.workers[l.w].done[i] == t;
  }

  /** How the number of queued copies of one task changes. */
  lemma QueueDelta(cfg: Config, s: State, l: Label, t: nat)
    requires Enabled(cfg, s, l)
    ensures QueueAfter(cfg, s, l)[t] + (if l.Pop? && l.t == t then 1 else 0)
            == (if l.Clear? then 0 else s.sh.queue[t])
               + (if Pushes(s, l, t) && !IsFull(cfg, s) then 1 else 0) + (if Requeues(cfg, s, l, t) then 1 else 0)
  {
  }

  /** How one task's record and life change. */
  lemma RecordDelta(cfg: Config, s: State, l: Label, t: nat)
    requires Enabled(cfg, s, l) && t < |s.lives|
    ensures var life, life' := s.lives[t], LifeAfter(cfg, s, l, t);
            && life'.producer == life.producer
            && life'.enqueued == (life.enqueued || (Pushes(s, l, t) && !IsFull(cfg, s)))
            && life'.refused == (life.refused || (Pushes(s, l, t) && IsFull(cfg, s)))
            && life'.popped == (life.popped || (l.Pop? && l.t == t))
            && life'.dropped == (life.dropped || (l.Clear? && t in s.sh.queue))
            && life'.executed == life.executed + (if Executes(s, l, t) then 1 else 0)
  {
    PathDelta(cfg, s, l, t);
    ExecutedDelta(cfg, s, l, t);
  }

  lemma PathDelta(cfg: Config, s: State, l: Label, t: nat)
    requires |s.lives| == |s.sh.tasks| && t < |s.lives|
    ensures var life, life' := s.lives[t], LifeAfter(cfg, s, l, t);
            && life'.popped == (life.popped || (l.Pop? && l.t == t))
            && life'.dropped == (life.dropped || (l.Clear? && t in s.sh.queue))
            && life'.producer == life.producer
  {
  }

  lemma ExecutedDelta(cfg: Config, s: State, l: Label, t: nat)
    requires |s.lives| == |s.sh.tasks| && t < |s.lives|
    ensures LifeAfter(cfg, s, l, t).executed == s.lives[t].executed + if Executes(s, l, t) then 1 else 0
  {
  }

  lemma ReportedDelta(cfg: Config, s: State, l: Label, t: nat)
    requires Enabled(cfg, s, l) && t < |s.lives|
    ensures LifeAfter(cfg, s, l, t).reported
            == s.lives[t].reported + if Rejects(s, l, t) || (FailsAttempt(s, l, t) && Exhausted(cfg, s.sh.tasks[t])) then 1 else 0
  {
    match l
    case Reject(_) =>
    case Execute(_, _, _) =>
    case Retry(_) =>
    case _ => assert !Rejects(s, l, t) && !FailsAttempt(s, l, t);
  }

  lemma RetryCountDelta(cfg: Config, s: State, l: Label, t: nat)
    requires Enabled(cfg, s, l) && t < |s.lives|
    ensures TaskAfter(cfg, s, l, t).retryCount
            == if MergesInto(s, l, t) && s.producers[l.p].task < |s.sh.tasks| then 0
               else if FailsAttempt(s, l, t) then s.sh.tasks[t].retryCount + 1 else s.sh.tasks[t].retryCount
  {
  }

  /** A task that was never queued is not touched by anything but its own push. */
  lemma QuietTask(cfg: Config, s: State, l: Label, t: nat)
    requires Enabled(cfg, s, l) && DoneOk(s) && t < |s.lives|
    requires Untouched(s, t) && !s.lives[t].enqueued
    ensures !FailsAttempt(s, l, t) && !Executes(s, l, t) && !Rejects(s, l, t) && !(l.Pop? && l.t == t)
    ensures Held(Any, WorkersAfter(s, l), t) == 0
  {
    if FailsAttempt(s, l, t) || Executes(s, l, t) || Rejects(s, l, t) {
      AttemptedIsHeld(s, l, t);
    }
    HeldMoves(cfg, s, l, Any, t);
    if l.Commit? && t in Entering(s, l, Any) {
      DoneWasExecuted(s, l, t);
    }
  }

  lemma StepKeepsUntouched(cfg: Config, s: State, l: Label, t: nat)
    requires Enabled(cfg, s, l) && DoneOk(s) && t < |s.lives|
    requires Untouched(s, t) && CachedOk(s, t)
    ensures t < |Apply(cfg, s, l).lives| && t < |Apply(cfg, s, l).sh.tasks| && Untouched(Apply(cfg, s, l), t)
  {
    AfterAt(cfg, s, l, t);
    RecordDelta(cfg, s, l, t);
    ReportedDelta(cfg, s, l, t);
    RetryCountDelta(cfg, s, l, t);
    QueueDelta(cfg, s, l, t);
    if !s.lives[t].enqueued {
      QuietTask(cfg, s, l, t);
    }
  }

  lemma PendingDelta(cfg: Config, s: State, l: Label, t: nat)
    requires Enabled(cfg, s, l) && ProducersOk(s) && t < |s.lives|
    ensures IsPending(Apply(cfg, s, l), t) <==>
              IsPending(s, t) && !Pushes(s, l, t)
              && !(l.Merge? && s.producers[l.p].task == t && s.producers[l.p].key in s.sh.cache)
  {
    AfterAt(cfg, s, l, t);
    RecordDelta(cfg, s, l, t);
    ReportedDelta(cfg, s, l, t);
    RetryCountDelta(cfg, s, l, t);
  }

  lemma AbsorbedDelta(cfg: Config, s: State, l: Label, t: nat)
    requires Enabled(cfg, s, l) && ProducersOk(s) && t < |s.lives| && CachedOk(s, t)
    ensures LifeAfter(cfg, s, l, t).absorbed
            == (s.lives[t].absorbed || (l.Merge? && s.producers[l.p].task == t && s.producers[l.p].key in s.sh.cache))
  {
  }

  lemma StepKeepsOneStatus(cfg: Config, s: State, l: Label, t: nat)
    requires Enabled(cfg, s, l) && ProducersOk(s) && t < |s.lives|
    requires OneStatus(s, t) && CachedOk(s, t)
    ensures t < |Apply(cfg, s, l).lives| && OneStatus(Apply(cfg, s, l), t)
  {
    AfterAt(cfg, s, l, t);
    RecordDelta(cfg, s, l, t);
    ReportedDelta(cfg, s, l, t);
    RetryCountDelta(cfg, s, l, t);
    PendingDelta(cfg, s, l, t);
    AbsorbedDelta(cfg, s, l, t);
  }

  /** A task that stays in the cache is not taken past it, attempted or absorbed. */
  lemma CachedStays(cfg: Config, s: State, l: Label, t: nat, k: string)
    requires Enabled(cfg, s, l) && ProducersOk(s) && DoneOk(s) && t < |s.lives|
    requires OneStatus(s, t) && CachedOk(s, t)
    requires k in s.sh.cache && s.sh.cache[k] == t && k in CacheAfter(s, l)
    ensures Held(Past, WorkersAfter(s, l), t) == 0
    ensures !FailsAttempt(s, l, t) && !Executes(s, l, t) && !Rejects(s, l, t) && !l.Clear?
    ensures LifeAfter(cfg, s, l, t).absorbed == false
    ensures IsPending(Apply(cfg, s, l), t) ==> Apply(cfg, s, l).producers[s.lives[t].producer].AtPush?
  {
    if FailsAttempt(s, l, t) || Executes(s, l, t) || Rejects(s, l, t) {
      AttemptedIsHeld(s, l, t);
    }
    CachedStaysOut(cfg, s, l, t, k);
    PendingDelta(cfg, s, l, t);
    AbsorbedDelta(cfg, s, l, t);
  }

  lemma CachedStaysOut(cfg: Config, s: State, l: Label, t: nat, k: string)
    requires Enabled(cfg, s, l) && DoneOk(s) && t < |s.lives| && CachedOk(s, t)
    requires k in s.sh.cache && s.sh.cache[k] == t && k in CacheAfter(s, l)
    ensures Held(Past, WorkersAfter(s, l), t) == 0
  {
    HeldMoves(cfg, s, l, Past, t);
    if t in Entering(s, l, Past) {
      EntersPast(cfg, s, l, t, k);
      DoneWasExecuted(s, l, t);
    }
  }

  /** A task that goes on being cached can only get past the cache again by a failed commit. */
  lemma EntersPast(cfg: Config, s: State, l: Label, t: nat, k: string)
    requires Enabled(cfg, s, l) && t in Entering(s, l, Past)
    requires k in s.sh.cache && s.sh.cache[k] == t && k in CacheAfter(s, l)
    ensures l.Commit? && t in Entering(s, l, Any)
  {
  }

  lemma StepKeepsCached(cfg: Config, s: State, l: Label, t: nat)
    requires Enabled(cfg, s, l) && ProducersOk(s) && DoneOk(s) && t < |s.lives|
    requires Untouched(s, t) && OneStatus(s, t) && CachedOk(s, t)
    ensures t < |Apply(cfg, s, l).lives| && t < |Apply(cfg, s, l).sh.tasks| && CachedOk(Apply(cfg, s, l), t)
  {
    var s' := Apply(cfg, s, l);
    AfterAt(cfg, s, l, t);
    RecordDelta(cfg, s, l, t);
    ReportedDelta(cfg, s, l, t);
    RetryCountDelta(cfg, s, l, t);
    forall k | k in s'.sh.cache && s'.sh.cache[k] == t
      ensures && Held(Past, s'.workers, t) == 0 && s'.sh.tasks[t].retryCount == 0 && s'.lives[t].executed == 0
              && !s'.lives[t].absorbed && !s'.lives[t].dropped && s'.lives[t].reported == 0
              && (IsPending(s', t) ==> s'.producers[s'.lives[t].producer].AtPush?)
    {
      if k in s.sh.cache && s.sh.cache[k] == t {
        CachedStays(cfg, s, l, t, k);
      } else {
        assert l.Merge? && s.producers[l.p] == AtMerge(t, k);
        HeldKinds(s.workers, t);
        AbsorbedDelta(cfg, s, l, t);
      }
    }
  }

  lemma StepKeepsData(cfg: Config, s: State, l: Label, t: nat)
    requires Enabled(cfg, s, l) && ProducersOk(s) && t < |s.lives|
    requires DataOk(s, t) && CachedOk(s, t)
    ensures t < |Apply(cfg, s, l).lives| && t < |Apply(cfg, s, l).sh.tasks| && DataOk(Apply(cfg, s, l), t)
  {
    AfterAt(cfg, s, l, t);
    DataAfter(cfg, s, l, t);
  }

  lemma DataAfter(cfg: Config, s: State, l: Label, t: nat)
    requires Enabled(cfg, s, l) && ProducersOk(s) && t < |s.lives|
    requires DataOk(s, t) && CachedOk(s, t)
    ensures var life, task := LifeAfter(cfg, s, l, t), TaskAfter(cfg, s, l, t);
            if life.executed == 0 then life.firstData == None && task.data == Fold(life.merged)
            else life.firstData == Some(Fold(life.merged))
  {
    if MergesInto(s, l, t) {
      var parts, data := s.lives[t].merged, s.sh.tasks[s.producers[l.p].task].data;
      assert (parts + [data])[..|parts|] == parts;
    }
  }

  lemma LeavesAccounted(s: State, l: Label, t: nat)
    requires t in Leaving(s, l, Any)
    ensures Executes(s, l, t) || Rejects(s, l, t) || (l.Retry? && FailsAttempt(s, l, t))
  {
  }

  lemma StepKeepsAccounted(cfg: Config, s: State, l: Label, t: nat)
    requires Enabled(cfg, s, l) && t < |s.lives|
    requires Accounted(s, t)
    ensures t < |Apply(cfg, s, l).lives| && Accounted(Apply(cfg, s, l), t)
  {
    AfterAt(cfg, s, l, t);
    RecordDelta(cfg, s, l, t);
    ReportedDelta(cfg, s, l, t);
    RetryCountDelta(cfg, s, l, t);
    QueueDelta(cfg, s, l, t);
    HeldMoves(cfg, s, l, Any, t);
    if t in Leaving(s, l, Any) {
      LeavesAccounted(s, l, t);
    }
    if l.Pop? && l.t == t {
      assert t in Entering(s, l, Any);
    }
  }

  /** A task leaves the runnable copies when executed and joins them when popped. */
  lemma RunnableDelta(s: State, l: Label, t: nat)
    ensures Count(Leaving(s, l, Runnable), t) >= if Executes(s, l, t) then 1 else 0
    ensures Count(Entering(s, l, Runnable), t) == if l.Pop? && l.t == t then 1 else 0
  {
  }

  lemma MergeTargetIsFresh(s: State, l: Label, t: nat)
    requires t < |s.lives| && t < |s.sh.tasks| && CachedOk(s, t) && MergesInto(s, l, t)
    ensures s.sh.tasks[t].retryCount == 0
  {
  }

  lemma PushedIsFresh(s: State, l: Label, t: nat)
    requires t < |s.lives| == |s.sh.tasks| && ProducersOk(s) && Untouched(s, t) && Pushes(s, l, t)
    ensures s.lives[t].executed == 0 && s.sh.queue[t] == 0 && Held(Runnable, s.workers, t) == 0 && s.sh.tasks[t].retryCount == 0
  {
    HeldKinds(s.workers, t);
  }

  lemma StepKeepsAttempts(cfg: Config, s: State, l: Label, t: nat)
    requires Enabled(cfg, s, l) && t < |s.lives| && ProducersOk(s)
    requires AttemptsOk(cfg, s, t) && CachedOk(s, t) && Untouched(s, t)
    ensures t < |Apply(cfg, s, l).lives| && t < |Apply(cfg, s, l).sh.tasks| && AttemptsOk(cfg, Apply(cfg, s, l), t)
  {
    AfterAt(cfg, s, l, t);
    HeldMoves(cfg, s, l, Runnable, t);
    AttemptsArithmetic(cfg, s, l, t, Held(Runnable, WorkersAfter(s, l), t));
  }

  lemma AttemptsArithmetic(cfg: Config, s: State, l: Label, t: nat, runnable: nat)
    requires Enabled(cfg, s, l) && t < |s.lives| && ProducersOk(s)
    requires AttemptsOk(cfg, s, t) && CachedOk(s, t) && Untouched(s, t)
    requires runnable + Count(Leaving(s, l, Runnable), t) == Held(Runnable, s.workers, t) + Count(Entering(s, l, Runnable), t)
    ensures var r := TaskAfter(cfg, s, l, t).retryCount;
            0 <= r && LifeAfter(cfg, s, l, t).executed + QueueAfter(cfg, s, l)[t] + runnable <= 1 + Min(r, AttemptLimit(cfg) - 1)
  {
    RecordDelta(cfg, s, l, t);
    RetryCountDelta(cfg, s, l, t);
    QueueDelta(cfg, s, l, t);
    RunnableDelta(s, l, t);
    if Pushes(s, l, t) {
      PushedIsFresh(s, l, t);
    }
    if MergesInto(s, l, t) {
      MergeTargetIsFresh(s, l, t);
    }
  }

  lemma NewTaskOk(cfg: Config, s: State, l: Label)
    requires Enabled(cfg, s, l) && Shape(s) && l.Create?
    ensures var s', t := Apply(cfg, s, l), |s.lives|;
            t < |s'.lives| && t < |s'.sh.tasks| && TaskOk(cfg, s', t)
  {
    var s', t := Apply(cfg, s, l), |s.lives|;
    assert s'.sh.tasks[t] == NewTask(s, l) && s'.lives[t].merged == [l.data];
    assert [l.data][..0] == [] && Fold([l.data]) == map[] + l.data == l.data;
    HeldKinds(s.workers, t);
  }
}
