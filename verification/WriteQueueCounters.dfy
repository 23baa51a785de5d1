/** What the counters of the queue count, in every run. */
module WriteQueueCounters {
  import opened Prelude
  import opened WriteQueue
  import opened WriteQueueMoves
  import opened WriteQueueSafety
  import opened WriteQueueRuns
  import opened WriteQueueDurable

  function Number(lives: seq<Life>, which: Life -> bool): nat {
    if lives == [] then 0 else Number(lives[..|lives| - 1], which) + if which(lives[|lives| - 1]) then 1 else 0
  }

  lemma {:induction false} NumberChange(xs: seq<Life>, ys: seq<Life>, which: Life -> bool, t: nat)
    requires |xs| == |ys| && t < |xs|
    requires forall i :: 0 <= i < |xs| && i != t ==> which(xs[i]) == which(ys[i])
    ensures Number(ys, which) + (if which(xs[t]) then 1 else 0) == Number(xs, which) + if which(ys[t]) then 1 else 0
  {
    var n := |xs| - 1;
    if t < n {
      NumberChange(xs[..n], ys[..n], which, t);
    } else {
      NumberSame(xs[..n], ys[..n], which);
    }
  }

  lemma {:induction false} NumberSame(xs: seq<Life>, ys: seq<Life>, which: Life -> bool)
    requires |xs| == |ys| && forall i :: 0 <= i < |xs| ==> which(xs[i]) == which(ys[i])
    ensures Number(ys, which) == Number(xs, which)
  {
    if xs != [] {
      NumberSame(xs[..|xs| - 1], ys[..|ys| - 1], which);
    }
  }

  function WasQueued(): Life -> bool {
    (life: Life) => life.enqueued
  }

  function WasMerged(): Life -> bool {
    (life: Life) => life.absorbed
  }

  function WasOk(): Attempt -> bool {
    (a: Attempt) => a.ok
  }

  ghost predicate Counted(s: State) {
    && s.sh.metrics.total == Number(s.lives, WasQueued())
    && s.sh.metrics.merged == Number(s.lives, WasMerged())
    && s.sh.metrics.completed == Tally(s.log, WasOk())
  }

  lemma StepCountsSuccesses(cfg: Config, s: State, l: Label)
    requires Enabled(cfg, s, l) && s.sh.metrics.completed == Tally(s.log, WasOk())
    ensures MetricsAfter(cfg, s, l).completed == Tally(LogAfter(s, l), WasOk())
  {
    if l.Execute? {
      TallyExecuted(s, l, WasOk());
    } else if l.Commit? {
      TallyEach(Settle(l.w, l.ok), s.log, WasOk());
    }
  }

  /** The step pushes or merges the task. */
  predicate Submits(s: State, l: Label, t: nat) {
    (l.Push? || l.Merge?) && l.p in s.producers && s.producers[l.p].task == t
  }

  lemma MarksKept(cfg: Config, s: State, l: Label, t: nat)
    requires Enabled(cfg, s, l) && t < |s.lives| && !Submits(s, l, t)
    ensures LifeAfter(cfg, s, l, t).enqueued == s.lives[t].enqueued && LifeAfter(cfg, s, l, t).absorbed == s.lives[t].absorbed
  {
  }

  lemma AllMarksKept(cfg: Config, s: State, l: Label)
    requires Enabled(cfg, s, l) && !l.Create?
    ensures var lives' := Apply(cfg, s, l).lives;
            && |lives'| == |s.lives|
            && forall t :: 0 <= t < |lives'| && !Submits(s, l, t) ==>
                 lives'[t].enqueued == s.lives[t].enqueued && lives'[t].absorbed == s.lives[t].absorbed
  {
    TasksGrow(cfg, s, l);
    forall t | 0 <= t < |s.lives| && !Submits(s, l, t)
      ensures Apply(cfg, s, l).lives[t].enqueued == s.lives[t].enqueued
              && Apply(cfg, s, l).lives[t].absorbed == s.lives[t].absorbed
    {
      AfterAt(cfg, s, l, t);
      MarksKept(cfg, s, l, t);
    }
  }

  lemma SubmissionIsCounted(cfg: Config, s: State, l: Label, t: nat)
    requires Enabled(cfg, s, l) && Inv(cfg, s) && Submits(s, l, t)
    ensures Number(Apply(cfg, s, l).lives, WasQueued())
            == Number(s.lives, WasQueued()) + if l.Push? && !IsFull(cfg, s) then 1 else 0
    ensures Number(Apply(cfg, s, l).lives, WasMerged())
            == Number(s.lives, WasMerged()) + if l.Merge? && s.producers[l.p].key in s.sh.cache then 1 else 0
  {
    var lives' := Apply(cfg, s, l).lives;
    AllMarksKept(cfg, s, l);
    PendingMarks(cfg, s, l, t);
    AfterAt(cfg, s, l, t);
    NumberChange(s.lives, lives', WasQueued(), t);
    NumberChange(s.lives, lives', WasMerged(), t);
  }

  lemma OtherStepsCountNothing(cfg: Config, s: State, l: Label)
    requires Enabled(cfg, s, l) && !l.Create? && !l.Push? && !l.Merge?
    ensures Number(Apply(cfg, s, l).lives, WasQueued()) == Number(s.lives, WasQueued())
    ensures Number(Apply(cfg, s, l).lives, WasMerged()) == Number(s.lives, WasMerged())
    ensures MetricsAfter(cfg, s, l).total == s.sh.metrics.total && MetricsAfter(cfg, s, l).merged == s.sh.metrics.merged
  {
    AllMarksKept(cfg, s, l);
    NumberSame(s.lives, Apply(cfg, s, l).lives, WasQueued());
    NumberSame(s.lives, Apply(cfg, s, l).lives, WasMerged());
  }

  lemma StepCountsMarks(cfg: Config, s: State, l: Label)
    requires Enabled(cfg, s, l) && Inv(cfg, s) && Counted(s) && !l.Create?
    ensures MetricsAfter(cfg, s, l).total == Number(Apply(cfg, s, l).lives, WasQueued())
    ensures MetricsAfter(cfg, s, l).merged == Number(Apply(cfg, s, l).lives, WasMerged())
  {
    if l.Push? || l.Merge? {
      SubmissionIsCounted(cfg, s, l, s.producers[l.p].task);
    } else {
      OtherStepsCountNothing(cfg, s, l);
    }
  }

  /** A pending task is queued by its push if there is room, and absorbed by its merge if there is an older one. */
  lemma PendingMarks(cfg: Config, s: State, l: Label, t: nat)
    requires Enabled(cfg, s, l) && Inv(cfg, s) && Submits(s, l, t)
    ensures t < |s.lives| && !s.lives[t].enqueued && !s.lives[t].absorbed
    ensures LifeAfter(cfg, s, l, t).enqueued == (l.Push? && !IsFull(cfg, s))
    ensures LifeAfter(cfg, s, l, t).absorbed == (l.Merge? && s.producers[l.p].key in s.sh.cache)
  {
    assert ProducersOk(s);
    assert TaskOk(cfg, s, t);
    AbsorbedDelta(cfg, s, l, t);
    RecordDelta(cfg, s, l, t);
  }

  lemma StepKeepsCounted(cfg: Config, s: State, l: Label)
    requires Enabled(cfg, s, l) && Inv(cfg, s) && Counted(s)
    ensures Counted(Apply(cfg, s, l))
  {
    StepCountsSuccesses(cfg, s, l);
    if l.Create? {
      var lives' := Apply(cfg, s, l).lives;
      TasksGrow(cfg, s, l);
      forall t | 0 <= t < |s.lives| ensures lives'[t] == s.lives[t] {
        AfterAt(cfg, s, l, t);
      }
      assert lives'[..|s.lives|] == s.lives;
    } else {
      StepCountsMarks(cfg, s, l);
    }
  }

  lemma {:induction false} RunKeepsCounted(cfg: Config, s: State, run: seq<Label>)
    requires Inv(cfg, s) && Counted(s) && CanRun(cfg, s, run)
    ensures Counted(After(cfg, s, run))
    decreases |run|
  {
    if run != [] {
      StepKeepsInv(cfg, s, run[0]);
      StepKeepsCounted(cfg, s, run[0]);
      RunKeepsCounted(cfg, Apply(cfg, s, run[0]), run[1..]);
    }
  }

  /**
   The counters in every run: the total is the number of tasks that were ever queued, the merged are those that an
   older task took over, the completed are the executions that succeeded, whatever became of their sessions; what
   remains of the total, with what failed commits brought back, is queued, in a worker's hands, cleared or failed.
   */
  lemma CountersCount(cfg: Config, s0: State, run: seq<Label>)
    requires Initial(s0) && CanRun(cfg, s0, run)
    ensures var s := After(cfg, s0, run);
            && s.sh.metrics.total == Number(s.lives, WasQueued())
            && s.sh.metrics.merged == Number(s.lives, WasMerged())
            && s.sh.metrics.completed == Tally(s.log, WasOk())
            && s.sh.metrics.failed
               == s.sh.metrics.total + s.surplus - |s.sh.queue| - HeldSize(s.workers) - s.cleared - s.sh.metrics.completed
  {
    InitialInv(cfg, s0);
    RunKeepsCounted(cfg, s0, run);
    TasksAreConserved(cfg, s0, run);
  }
}
