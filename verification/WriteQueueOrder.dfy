/**
 What leaves the queue first, in the terms of those who submit: by the level they asked for, by whether
 a task has failed, and by age. And when a failed task is given up.
 */
module WriteQueueOrder {
  import opened Prelude
  import opened WriteQueue
  import opened WriteQueueMoves
  import opened WriteQueueSafety
  import opened WriteQueueRuns
  import opened WriteQueueHeap

  /** What a task was submitted with, and how often an attempt at it has failed. */
  datatype Record = Record(level: Level, failures: nat)

  function Failed(s: State, l: Label, t: nat, record: Record): Record {
    if FailsAttempt(s, l, t) then record.(failures := record.failures + 1) else record
  }

  function Tallied(s: State, l: Label, records: seq<Record>): seq<Record> {
    seq(|records|, i requires 0 <= i < |records| => Failed(s, l, i, records[i]))
  }

  function RecordsAfter(s: State, l: Label, records: seq<Record>): seq<Record> {
    Tallied(s, l, records) + if l.Create? then [Record(l.level, 0)] else []
  }

  /** The history of a run, task by task in the order of their creation. */
  ghost function Records(cfg: Config, s: State, run: seq<Label>, records: seq<Record>): seq<Record>
    requires CanRun(cfg, s, run)
    decreases |run|
  {
    if run == [] then records else Records(cfg, Apply(cfg, s, run[0]), run[1..], RecordsAfter(s, run[0], records))
  }

  // ----- Levels -----

  /** The first level can wait for the second. */
  predicate LessUrgent(a: Level, b: Level) {
    || (a == Low && b == Normal) || (a == Low && b == High) || (a == Low && b == Critical)
    || (a == Normal && b == High) || (a == Normal && b == Critical)
    || (a == High && b == Critical)
  }

  /** A task that has failed is no less urgent than one of level `High`. */
  function Urgency(record: Record): Level {
    if record.failures > 0 && (record.level == Low || record.level == Normal) then High else record.level
  }

  lemma LevelsAreOrdered(a: Level, b: Level)
    ensures LessUrgent(a, b) <==> LevelValue(a) < LevelValue(b)
    ensures a == b <==> LevelValue(a) == LevelValue(b)
  {
  }

  // ----- The invariant -----

  /** Priority, age and retry count of a task follow from its record; with a single attempt a failed task is not queued. */
  predicate OrderOk(cfg: Config, s: State, t: nat, record: Record)
    requires t < |s.sh.tasks|
  {
    var task := s.sh.tasks[t];
    && task.retryCount == record.failures && task.sequence == t + 1
    && (record.failures > 0 && cfg.maxRetries <= 1 ==> s.sh.queue[t] == 0)
    && (record.failures == 0 ==> task.priority == -LevelValue(record.level))
    && (record.failures > 0 && cfg.maxRetries > 1 ==> task.priority == -LevelValue(Urgency(record)))
  }

  ghost predicate OrderInv(cfg: Config, s: State, records: seq<Record>) {
    && HeapInv(cfg, s) && |records| == |s.sh.tasks|
    && forall t :: 0 <= t < |records| ==> OrderOk(cfg, s, t, records[t])
  }

  lemma PriorityDelta(cfg: Config, s: State, l: Label, t: nat)
    requires t < |s.sh.tasks|
    ensures TaskAfter(cfg, s, l, t).priority
            == if FailsAttempt(s, l, t) && s.sh.tasks[t].retryCount + 1 < cfg.maxRetries
               then Min(s.sh.tasks[t].priority, -LevelValue(High)) else s.sh.tasks[t].priority
  {
  }

  lemma FailingIsHeld(s: State, l: Label, t: nat)
    requires t < |s.sh.tasks| && FailsAttempt(s, l, t) && InOnePlace(s, t) && s.sh.tasks[t].retryCount == 0
    ensures s.sh.queue[t] == 0
  {
    AttemptedIsHeld(s, l, t);
  }

  lemma StepKeepsKey(cfg: Config, s: State, l: Label, t: nat, record: Record)
    requires Enabled(cfg, s, l) && t < |s.sh.tasks| && OrderOk(cfg, s, t, record) && CachedOk(s, t)
    ensures var task, record' := TaskAfter(cfg, s, l, t), Failed(s, l, t, record);
            && task.retryCount == record'.failures && task.sequence == t + 1
            && (record'.failures == 0 ==> task.priority == -LevelValue(record'.level))
            && (record'.failures > 0 && cfg.maxRetries > 1 ==> task.priority == -LevelValue(Urgency(record')))
  {
    SequenceStays(cfg, s, l, t);
    RetryCountDelta(cfg, s, l, t);
    PriorityDelta(cfg, s, l, t);
    if MergesInto(s, l, t) {
      MergeTargetIsFresh(s, l, t);
    }
  }

  lemma StepKeepsSingle(cfg: Config, s: State, l: Label, t: nat, record: Record)
    requires HeapInv(cfg, s) && Enabled(cfg, s, l) && t < |s.sh.tasks| && OrderOk(cfg, s, t, record)
    ensures Failed(s, l, t, record).failures > 0 && cfg.maxRetries <= 1 ==> QueueAfter(cfg, s, l)[t] == 0
  {
    assert TaskOk(cfg, s, t) && InOnePlace(s, t);
    QueueDelta(cfg, s, l, t);
    if Pushes(s, l, t) {
      PushedIsFresh(s, l, t);
    }
    if FailsAttempt(s, l, t) && record.failures == 0 {
      FailingIsHeld(s, l, t);
    }
  }

  lemma StepKeepsRecord(cfg: Config, s: State, l: Label, t: nat, record: Record)
    requires HeapInv(cfg, s) && Enabled(cfg, s, l) && t < |s.sh.tasks| && OrderOk(cfg, s, t, record)
    ensures t < |Apply(cfg, s, l).sh.tasks| && OrderOk(cfg, Apply(cfg, s, l), t, Failed(s, l, t, record))
  {
    assert TaskOk(cfg, s, t);
    AfterAt(cfg, s, l, t);
    StepKeepsKey(cfg, s, l, t, record);
    StepKeepsSingle(cfg, s, l, t, record);
  }

  lemma StepKeepsOrder(cfg: Config, s: State, l: Label, records: seq<Record>)
    requires OrderInv(cfg, s, records) && Enabled(cfg, s, l)
    ensures OrderInv(cfg, Apply(cfg, s, l), RecordsAfter(s, l, records))
  {
    var s', records' := Apply(cfg, s, l), RecordsAfter(s, l, records);
    StepKeepsHeapInv(cfg, s, l);
    TasksGrow(cfg, s, l);
    forall t | 0 <= t < |records'| ensures OrderOk(cfg, s', t, records'[t]) {
      if t < |records| {
        StepKeepsRecord(cfg, s, l, t, records[t]);
      } else {
        assert s'.sh.tasks[t] == NewTask(s, l);
      }
    }
  }

  lemma {:induction false} RunKeepsOrder(cfg: Config, s: State, run: seq<Label>, records: seq<Record>)
    requires OrderInv(cfg, s, records) && CanRun(cfg, s, run)
    ensures OrderInv(cfg, After(cfg, s, run), Records(cfg, s, run, records))
    decreases |run|
  {
    if run != [] {
      StepKeepsOrder(cfg, s, run[0], records);
      RunKeepsOrder(cfg, Apply(cfg, s, run[0]), run[1..], RecordsAfter(s, run[0], records));
    }
  }

  lemma ReachableOrder(cfg: Config, s0: State, run: seq<Label>)
    requires Initial(s0) && CanRun(cfg, s0, run)
    ensures OrderInv(cfg, After(cfg, s0, run), Records(cfg, s0, run, []))
  {
    InitialInv(cfg, s0);
    RunKeepsOrder(cfg, s0, run, []);
  }

  // ----- Theorems -----

  /** Two queued tasks compare by urgency, then by age. */
  lemma QueuedCompare(cfg: Config, s: State, records: seq<Record>, t: nat, u: nat)
    requires OrderInv(cfg, s, records) && t < |records| && u < |records| && t in s.sh.queue && u in s.sh.queue
    ensures Precedes(s.sh.tasks[t], s.sh.tasks[u])
            <==> LessUrgent(Urgency(records[u]), Urgency(records[t])) || (Urgency(records[u]) == Urgency(records[t]) && t <= u)
  {
    assert OrderOk(cfg, s, t, records[t]) && OrderOk(cfg, s, u, records[u]);
    LevelsAreOrdered(Urgency(records[u]), Urgency(records[t]));
  }

  /**
   The pop order. In every interleaving, a task that leaves the queue is the oldest of the most urgent ones:
   none that stays behind is more urgent, and none that is equally urgent was created before it. A task
   is as urgent as the level it was submitted with, and once it has failed at least as urgent as `High`.
   */
  lemma PopOrder(cfg: Config, s0: State, run: seq<Label>, w: nat, t: nat, u: nat)
    requires Initial(s0) && CanRun(cfg, s0, run)
    requires Enabled(cfg, After(cfg, s0, run), Pop(w, t)) && u in After(cfg, s0, run).sh.queue
    ensures var records := Records(cfg, s0, run, []);
            && t < |records| && u < |records|
            && !LessUrgent(Urgency(records[t]), Urgency(records[u]))
            && (Urgency(records[t]) == Urgency(records[u]) ==> t <= u)
  {
    ReachableOrder(cfg, s0, run);
    QueuedCompare(cfg, After(cfg, s0, run), Records(cfg, s0, run, []), t, u);
  }

  /** Of two tasks that have never failed, the one submitted with the more urgent level is popped first. */
  lemma LevelsDecide(cfg: Config, s0: State, run: seq<Label>, w: nat, t: nat, u: nat)
    requires Initial(s0) && CanRun(cfg, s0, run)
    requires var records := Records(cfg, s0, run, []);
             t < |records| && u < |records| && records[t].failures == 0 && records[u].failures == 0
    requires u in After(cfg, s0, run).sh.queue
    requires LessUrgent(Records(cfg, s0, run, [])[t].level, Records(cfg, s0, run, [])[u].level)
    ensures !Enabled(cfg, After(cfg, s0, run), Pop(w, t))
  {
    if Enabled(cfg, After(cfg, s0, run), Pop(w, t)) {
      PopOrder(cfg, s0, run, w, t, u);
    }
  }

  /** A task of a low or normal level that is queued again overtakes every one that has not failed yet. */
  lemma RetriedGoFirst(cfg: Config, s0: State, run: seq<Label>, w: nat, t: nat, u: nat)
    requires Initial(s0) && CanRun(cfg, s0, run)
    requires var records := Records(cfg, s0, run, []);
             && t < |records| && u < |records| && records[t].failures == 0 && records[u].failures > 0
             && records[t].level in {Low, Normal} && records[u].level in {Low, Normal}
    requires u in After(cfg, s0, run).sh.queue
    ensures !Enabled(cfg, After(cfg, s0, run), Pop(w, t))
  {
    if Enabled(cfg, After(cfg, s0, run), Pop(w, t)) {
      PopOrder(cfg, s0, run, w, t, u);
    }
  }

  /**
   When a failed attempt is given up. In every interleaving, an attempt that fails as the `max_retries`-th or
   a later one reports the task as failed and does not queue it; every other one queues it once more.
   */
  lemma GivenUpIff(cfg: Config, s0: State, run: seq<Label>, l: Label, t: nat)
    requires Initial(s0) && CanRun(cfg, s0, run) && Enabled(cfg, After(cfg, s0, run), l)
    requires FailsAttempt(After(cfg, s0, run), l, t)
    ensures var s, s', records := After(cfg, s0, run), Apply(cfg, After(cfg, s0, run), l), Records(cfg, s0, run, []);
            && t < |records| && t < |s.lives| && t < |s'.lives|
            && (records[t].failures + 1 >= cfg.maxRetries ==>
                  && s'.lives[t].reported == s.lives[t].reported + 1 && s'.sh.queue == s.sh.queue
                  && s'.sh.metrics.failed == s.sh.metrics.failed + 1)
            && (records[t].failures + 1 < cfg.maxRetries ==>
                  && s'.lives[t].reported == s.lives[t].reported && s'.sh.queue == s.sh.queue + multiset{t}
                  && s'.sh.metrics.failed == s.sh.metrics.failed)
  {
    var s := After(cfg, s0, run);
    ReachableOrder(cfg, s0, run);
    AfterAt(cfg, s, l, t);
    assert OrderOk(cfg, s, t, Records(cfg, s0, run, [])[t]);
    ReportedDelta(cfg, s, l, t);
  }
}
