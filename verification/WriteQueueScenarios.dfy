/**
 Runs that reach what the theorems allow: updates, inserts and upserts that are lost without a word,
 tasks that are written twice, and a full queue. One worker and one or two tasks are enough.
 */
module WriteQueueScenarios {
  import opened Prelude
  import opened WriteQueue
  import opened WriteQueueMoves
  import opened WriteQueueSafety
  import opened WriteQueueRuns
  import opened WriteQueueDrain
  import opened WriteQueueDurable
  import opened WriteQueueSteps

  // ----- The steps of a single worker while nobody submits -----

  /** One worker, tasks of one registered model, and nobody submitting. */
  ghost predicate Solo(s: State) {
    && |s.lives| == |s.sh.tasks| && |s.workers| == 1 && s.sh.cache == map[] && s.producers == map[]
    && (forall t :: 0 <= t < |s.sh.tasks| ==> s.sh.tasks[t].model in s.sh.registry)
    && forall t, u :: 0 <= t < u < |s.sh.tasks| ==> s.sh.tasks[t].model == s.sh.tasks[u].model
  }

  function Taken(s: State, batch: seq<nat>, t: nat): State
    requires t < |s.lives|
  {
    s.(sh := s.sh.(queue := s.sh.queue - multiset{t}), workers := [Gathering(batch + [t], None)],
       lives := s.lives[t := s.lives[t].(popped := true)])
  }

  lemma PopStep(cfg: Config, s: State, batch: seq<nat>, t: nat)
    requires Solo(s) && s.workers[0] == Gathering(batch, None) && IsLeast(s.sh, t) && |batch| < cfg.batchSize
    ensures Enabled(cfg, s, Pop(0, t))
    ensures Apply(cfg, s, Pop(0, t)) == Taken(s, batch, t).(workers := [Gathering(batch, Some(t))])
  {
    var s' := Apply(cfg, s, Pop(0, t));
    assert s'.sh.tasks == s.sh.tasks;
    assert s'.lives == s.lives[t := s.lives[t].(popped := true)];
    assert s'.workers == [Gathering(batch, Some(t))];
  }

  lemma UncacheStep(cfg: Config, s: State, batch: seq<nat>, t: nat)
    requires Solo(s) && s.workers[0] == Gathering(batch, Some(t)) && t < |s.sh.tasks|
    ensures Enabled(cfg, s, Uncache(0)) && Apply(cfg, s, Uncache(0)) == s.(workers := [Gathering(batch + [t], None)])
  {
    var s' := Apply(cfg, s, Uncache(0));
    assert s'.sh.tasks == s.sh.tasks && s'.lives == s.lives;
    assert s'.workers == [Gathering(batch + [t], None)];
    assert s'.sh.cache == map[];
  }

  function Taking(t: nat): seq<Label> {
    [Pop(0, t)] + [Uncache(0)]
  }

  lemma TakingRuns(cfg: Config, s: State, batch: seq<nat>, t: nat)
    requires Solo(s) && s.workers[0] == Gathering(batch, None) && IsLeast(s.sh, t) && |batch| < cfg.batchSize
    ensures CanRun(cfg, s, Taking(t)) && After(cfg, s, Taking(t)) == Taken(s, batch, t)
  {
    PopStep(cfg, s, batch, t);
    var s1 := Apply(cfg, s, Pop(0, t));
    UncacheStep(cfg, s1, batch, t);
    RunOne(cfg, s1, Uncache(0), []);
    assert [Uncache(0)] + [] == [Uncache(0)];
    RunOne(cfg, s, Pop(0, t), [Uncache(0)]);
  }

  lemma {:induction false} OneGroup(tasks: seq<Task>, batch: seq<nat>)
    requires batch != [] && forall i :: 0 <= i < |batch| ==> batch[i] < |tasks|
    requires forall t, u :: 0 <= t < u < |tasks| ==> tasks[t].model == tasks[u].model
    ensures GroupByModel(tasks, batch) == [batch]
  {
    var n := |batch| - 1;
    if n > 0 {
      OneGroup(tasks, batch[..n]);
      assert tasks[batch[0]].model == tasks[batch[n]].model;
      assert AddToGroup(tasks, [batch[..n]], batch[n]) == [batch[..n] + [batch[n]]];
      assert batch[..n] + [batch[n]] == batch;
    } else {
      assert batch[..0] == [] && GroupByModel(tasks, []) == [];
      assert batch == [batch[0]];
    }
  }

  lemma SealStep(cfg: Config, s: State, batch: seq<nat>)
    requires Solo(s) && s.workers[0] == Gathering(batch, None)
    requires batch != [] && forall i :: 0 <= i < |batch| ==> batch[i] < |s.sh.tasks|
    ensures Enabled(cfg, s, Seal(0)) && Apply(cfg, s, Seal(0)) == s.(workers := [Running([batch])])
  {
    OneGroup(s.sh.tasks, batch);
    var s' := Apply(cfg, s, Seal(0));
    assert s'.sh.tasks == s.sh.tasks && s'.lives == s.lives;
    assert s'.workers == [Running([batch])];
  }

  lemma OpenStep(cfg: Config, s: State, batch: seq<nat>)
    requires Solo(s) && s.workers[0] == Running([batch]) && batch != [] && batch[0] < |s.sh.tasks|
    ensures Enabled(cfg, s, Open(0, true)) && Apply(cfg, s, Open(0, true)) == s.(workers := [InSession(batch, [], [])])
  {
    var s' := Apply(cfg, s, Open(0, true));
    assert s'.sh.tasks == s.sh.tasks && s'.lives == s.lives;
    assert [batch][1..] == [];
    assert s'.workers == [InSession(batch, [], [])];
  }

  function Starting(): seq<Label> {
    [Seal(0)] + [Open(0, true)]
  }

  lemma StartingRuns(cfg: Config, s: State, batch: seq<nat>)
    requires Solo(s) && s.workers[0] == Gathering(batch, None)
    requires batch != [] && forall i :: 0 <= i < |batch| ==> batch[i] < |s.sh.tasks|
    ensures CanRun(cfg, s, Starting()) && After(cfg, s, Starting()) == s.(workers := [InSession(batch, [], [])])
  {
    SealStep(cfg, s, batch);
    var s1 := Apply(cfg, s, Seal(0));
    OpenStep(cfg, s1, batch);
    RunOne(cfg, s1, Open(0, true), []);
    assert [Open(0, true)] + [] == [Open(0, true)];
    RunOne(cfg, s, Seal(0), [Open(0, true)]);
  }

  /** The state after the worker has executed its next task. */
  function Ran(cfg: Config, s: State, ok: bool, inside: Inside): State
    requires |s.workers| == 1 && AtTask(s, 0) && s.workers[0].InSession? && |s.lives| == |s.sh.tasks|
  {
    var worker, t := s.workers[0], Current(s, 0);
    var run := Executed(s.sh.tasks[t]);
    s.(sh := s.sh.(tasks := s.sh.tasks[t := if ok then run else FailedAttempt(cfg, run)],
                   queue := if ok || Exhausted(cfg, s.sh.tasks[t]) then s.sh.queue else s.sh.queue + multiset{t},
                   metrics := MetricsAfter(cfg, s, Execute(0, ok, inside))),
       workers := [InSession(worker.todo[1..], worker.done + [t], worker.rest)],
       lives := s.lives[t := LifeAfter(cfg, s, Execute(0, ok, inside), t)],
       log := Decided(s.log, 0, inside) + [EntryOf(s, 0, ok, inside)])
  }

  lemma ExecuteStep(cfg: Config, s: State, ok: bool, inside: Inside)
    requires Solo(s) && AtTask(s, 0) && s.workers[0].InSession?
    requires inside.Straight? || s.sh.tasks[Current(s, 0)].op == Upsert
    ensures Enabled(cfg, s, Execute(0, ok, inside)) && Apply(cfg, s, Execute(0, ok, inside)) == Ran(cfg, s, ok, inside)
    ensures Solo(Ran(cfg, s, ok, inside))
  {
    var s' := Apply(cfg, s, Execute(0, ok, inside));
    assert s'.sh.tasks == Ran(cfg, s, ok, inside).sh.tasks;
    assert s'.lives == Ran(cfg, s, ok, inside).lives;
    assert s'.workers == Ran(cfg, s, ok, inside).workers;
  }

  lemma CommitStep(cfg: Config, s: State, done: seq<nat>, ok: bool)
    requires Solo(s) && s.workers[0] == InSession([], done, [])
    ensures Enabled(cfg, s, Commit(0, ok))
    ensures Apply(cfg, s, Commit(0, ok))
            == s.(workers := [if ok then IDLE else Retrying(done, [])], log := Each(Settle(0, ok), s.log),
                  surplus := s.surplus + if ok then 0 else |done|)
  {
    var s' := Apply(cfg, s, Commit(0, ok));
    assert s'.sh.tasks == s.sh.tasks && s'.lives == s.lives;
    assert s'.workers == [if ok then IDLE else Retrying(done, [])];
  }

  // ----- One task -----

  ghost predicate Tiny(s: State) {
    Solo(s) && |s.sh.tasks| == 1 && forall u :: u in s.sh.queue ==> u == 0
  }

  function Opening(): seq<Label> {
    Taking(0) + Starting()
  }

  function InOpened(s: State): State
    requires |s.lives| == 1
  {
    Taken(s, [], 0).(workers := [InSession([0], [], [])])
  }

  lemma Opened(cfg: Config, s: State)
    requires Tiny(s) && s.workers[0] == IDLE && 0 in s.sh.queue && cfg.batchSize >= 1
    ensures CanRun(cfg, s, Opening()) && After(cfg, s, Opening()) == InOpened(s) && Tiny(InOpened(s))
  {
    TakingRuns(cfg, s, [], 0);
    assert [] + [0] == [0];
    StartingRuns(cfg, Taken(s, [], 0), [0]);
    RunInTwo(cfg, s, Taking(0), Starting());
  }

  lemma RetryStep(cfg: Config, s: State)
    requires Tiny(s) && s.workers[0] == Retrying([0], []) && !Exhausted(cfg, s.sh.tasks[0])
    ensures Enabled(cfg, s, Retry(0))
    ensures Apply(cfg, s, Retry(0))
            == s.(sh := s.sh.(tasks := [FailedAttempt(cfg, s.sh.tasks[0])], queue := s.sh.queue + multiset{0}),
                  workers := [IDLE])
  {
    var s' := Apply(cfg, s, Retry(0));
    assert s'.sh.tasks == [FailedAttempt(cfg, s.sh.tasks[0])] && s'.lives == s.lives;
    assert s'.workers == [IDLE];
  }

  function Closing(commits: bool): seq<Label> {
    [Commit(0, commits)] + if commits then [] else [Retry(0)]
  }

  /** The state after the session was ended, and the task retried when the commit failed. */
  function Closed(cfg: Config, s: State, commits: bool): State
    requires |s.sh.tasks| == 1
  {
    var log := Each(Settle(0, commits), s.log);
    if commits then s.(workers := [IDLE], log := log)
    else
      s.(sh := s.sh.(tasks := [FailedAttempt(cfg, s.sh.tasks[0])], queue := s.sh.queue + multiset{0}),
         workers := [IDLE], log := log, surplus := s.surplus + 1)
  }

  lemma ClosingRuns(cfg: Config, s: State, commits: bool)
    requires Tiny(s) && s.workers[0] == InSession([], [0], []) && (commits || !Exhausted(cfg, s.sh.tasks[0]))
    ensures CanRun(cfg, s, Closing(commits)) && After(cfg, s, Closing(commits)) == Closed(cfg, s, commits)
  {
    CommitStep(cfg, s, [0], commits);
    var s1 := Apply(cfg, s, Commit(0, commits));
    if !commits {
      RetryStep(cfg, s1);
      RunOne(cfg, s1, Retry(0), []);
      assert [Retry(0)] + [] == [Retry(0)];
    }
    RunOne(cfg, s, Commit(0, commits), if commits then [] else [Retry(0)]);
  }

  /** Taking the task, executing it and ending the session. */
  function Round(ok: bool, inside: Inside, commits: bool): seq<Label> {
    Opening() + ([Execute(0, ok, inside)] + Closing(commits))
  }

  function RoundEnd(cfg: Config, s: State, ok: bool, inside: Inside, commits: bool): State
    requires |s.sh.tasks| == 1 && |s.lives| == 1
  {
    assert AtTask(InOpened(s), 0);
    Closed(cfg, Ran(cfg, InOpened(s), ok, inside), commits)
  }

  lemma RoundRuns(cfg: Config, s: State, ok: bool, inside: Inside, commits: bool)
    requires Tiny(s) && s.workers[0] == IDLE && 0 in s.sh.queue && cfg.batchSize >= 1
    requires commits || s.sh.tasks[0].retryCount + 2 < cfg.maxRetries
    requires inside.Straight? || s.sh.tasks[0].op == Upsert
    ensures CanRun(cfg, s, Round(ok, inside, commits)) && After(cfg, s, Round(ok, inside, commits)) == RoundEnd(cfg, s, ok, inside, commits)
    ensures Tiny(RoundEnd(cfg, s, ok, inside, commits))
  {
    Opened(cfg, s);
    SessionRuns(cfg, InOpened(s), ok, inside, commits);
    RunInTwo(cfg, s, Opening(), [Execute(0, ok, inside)] + Closing(commits));
  }

  lemma SessionRuns(cfg: Config, s: State, ok: bool, inside: Inside, commits: bool)
    requires Tiny(s) && s.workers[0] == InSession([0], [], [])
    requires commits || s.sh.tasks[0].retryCount + 2 < cfg.maxRetries
    requires inside.Straight? || s.sh.tasks[0].op == Upsert
    ensures var run := [Execute(0, ok, inside)] + Closing(commits);
            CanRun(cfg, s, run) && After(cfg, s, run) == Closed(cfg, Ran(cfg, s, ok, inside), commits)
    ensures Tiny(Closed(cfg, Ran(cfg, s, ok, inside), commits))
  {
    ExecuteStep(cfg, s, ok, inside);
    ClosingRuns(cfg, Ran(cfg, s, ok, inside), commits);
    RunOne(cfg, s, Execute(0, ok, inside), Closing(commits));
  }

  // ----- Getting started -----

  function Beginning(op: Operation, model: string, data: Fields): seq<Label> {
    [RegisterModel(model)] + ([Create(0, op, model, data, Normal, None, "id")] + [Push(0)])
  }

  function NewTaskOf(op: Operation, model: string, data: Fields): Task {
    Task(-1, 1, op, model, data, 0, "id")
  }

  function Begun(s: State, op: Operation, model: string, data: Fields): State {
    s.(sh := Shared([NewTaskOf(op, model, data)], multiset{0}, map[], Metrics(1, 0, 0, 0), s.sh.registry + {model}),
       lives := [Life(0, [data], false, false, true, false, false, 0, None, 0)])
  }

  lemma BeginningRuns(cfg: Config, s: State, op: Operation, model: string, data: Fields)
    requires Initial(s) && |s.workers| == 1 && cfg.maxQueueSize >= 1
    ensures CanRun(cfg, s, Beginning(op, model, data)) && After(cfg, s, Beginning(op, model, data)) == Begun(s, op, model, data)
    ensures Tiny(Begun(s, op, model, data))
  {
    var create := Create(0, op, model, data, Normal, None, "id");
    var s1 := Apply(cfg, s, RegisterModel(model));
    assert s1 == s.(sh := s.sh.(registry := s.sh.registry + {model}));
    var s2 := Apply(cfg, s1, create);
    assert s2 == s1.(sh := s1.sh.(tasks := [NewTaskOf(op, model, data)]), producers := map[0 := AtPush(0)],
                     lives := [Life(0, [data], false, false, false, false, false, 0, None, 0)]);
    var s3 := Apply(cfg, s2, Push(0));
    assert s3.sh.tasks == s2.sh.tasks && s3.producers == map[] && s3 == Begun(s, op, model, data);
    RunOne(cfg, s2, Push(0), []);
    assert [Push(0)] + [] == [Push(0)];
    RunOne(cfg, s1, create, [Push(0)]);
    RunOne(cfg, s, RegisterModel(model), [create] + [Push(0)]);
  }

  // ----- The runs -----

  /** The entry of an execution when its session has ended. */
  function SettledEntry(task: Task, ok: bool, inside: Inside, commits: bool): Attempt {
    Attempt(0, 0, ok, NamesNow(task.op, task.data, inside), inside.FallsBack?,
            if inside.CommitsEarly? || (ok && commits) then Durable else Discarded, if commits then Committed else RolledBack)
  }

  predicate AllSettled(log: seq<Attempt>) {
    forall a :: a in log ==> !a.fate.Unsettled?
  }

  lemma RoundLog(cfg: Config, s: State, ok: bool, inside: Inside, commits: bool)
    requires Tiny(s) && AllSettled(s.log)
    ensures RoundEnd(cfg, s, ok, inside, commits).log == s.log + [SettledEntry(s.sh.tasks[0], ok, inside, commits)]
    ensures AllSettled(RoundEnd(cfg, s, ok, inside, commits).log)
  {
    DecidedSettled(s.log, 0, inside);
    SettledLast(s.log, EntryOf(InOpened(s), 0, ok, inside), commits);
  }

  lemma DecidedSettled(log: seq<Attempt>, w: nat, inside: Inside)
    requires AllSettled(log)
    ensures Decided(log, w, inside) == log
  {
    assert forall i :: 0 <= i < |log| ==> log[i] in log;
  }

  lemma SettledLast(log: seq<Attempt>, a: Attempt, commits: bool)
    requires AllSettled(log)
    ensures Each(Settle(0, commits), log + [a]) == log + [Settle(0, commits)(a)]
  {
    assert forall i :: 0 <= i < |log| ==> log[i] in log;
  }

  lemma RestsInTheEnd(s: State)
    requires Tiny(s) && s.workers[0] == IDLE && 0 !in s.sh.queue
    ensures AtRest(s, 0)
  {
    IdleHoldsNothing(Any, s.workers, 0);
  }

  /** What a round with a successful execution leaves behind. */
  lemma SuccessRound(cfg: Config, s: State, inside: Inside, commits: bool)
    requires Tiny(s)
    ensures var task, s' := s.sh.tasks[0], RoundEnd(cfg, s, true, inside, commits);
            && |s'.sh.tasks| == 1 && |s'.lives| == 1 && s'.workers == [IDLE]
            && s'.sh.tasks[0] == (if commits then Executed(task) else FailedAttempt(cfg, Executed(task)))
            && s'.sh.queue == s.sh.queue - multiset{0} + (if commits then multiset{} else multiset{0})
            && s'.lives[0].executed == s.lives[0].executed + 1
            && s'.lives[0].refused == s.lives[0].refused && s'.lives[0].dropped == s.lives[0].dropped
            && s'.lives[0].absorbed == s.lives[0].absorbed && s'.lives[0].reported == s.lives[0].reported
            && s'.sh.metrics == s.sh.metrics.(completed := s.sh.metrics.completed + 1)
  {
  }

  /**
   An update is lost without a word. Its first execution succeeds but its commit fails; the second,
   which is committed and counted as completed, names no row.
   */
  lemma UpdateIsSilentlyLost(cfg: Config, s0: State, model: string, data: Fields)
    requires Initial(s0) && |s0.workers| == 1
    requires cfg.maxQueueSize >= 1 && cfg.batchSize >= 1 && cfg.maxRetries >= 3
    requires "id" in data && data["id"] != 0
    ensures var run := Beginning(Update, model, data) + (Round(true, Straight, false) + Round(true, Straight, true));
            && CanRun(cfg, s0, run)
            && var s := After(cfg, s0, run);
               && s.log == [Attempt(0, 0, true, true, false, Discarded, RolledBack),
                            Attempt(0, 0, true, false, false, Durable, Committed)]
               && |s.lives| == 1 && s.lives[0].executed == 2 && !s.lives[0].refused && !s.lives[0].dropped
               && s.sh.metrics.failed == 0 && s.sh.metrics.completed == 2
               && SilentlyLost(s, 0)
  {
    BeginningRuns(cfg, s0, Update, model, data);
    var s1 := Begun(s0, Update, model, data);
    TwoRounds(cfg, s1, Straight);
    RunInTwo(cfg, s0, Beginning(Update, model, data), Round(true, Straight, false) + Round(true, Straight, true));
    RoundRuns(cfg, s1, true, Straight, false);
    TwoRoundsLeave(cfg, s1, Straight);
    UpdateEnds(cfg, s1);
    NothingNamedIsDurable(TwoRoundsEnd(cfg, s1, Straight));
  }

  lemma UpdateEntries(cfg: Config, task: Task)
    requires task.op == Update && NamesARow(Update, task.data)
    ensures SettledEntry(task, true, Straight, false) == Attempt(0, 0, true, true, false, Discarded, RolledBack)
    ensures SettledEntry(FailedAttempt(cfg, Executed(task)), true, Straight, true)
            == Attempt(0, 0, true, false, false, Durable, Committed)
  {
  }

  lemma NothingNamedIsDurable(s: State)
    requires Tiny(s) && s.workers[0] == IDLE && 0 !in s.sh.queue && !s.lives[0].absorbed && s.lives[0].reported == 0
    requires forall a :: a in s.log ==> !a.effect.Durable? || !a.names
    ensures SilentlyLost(s, 0)
  {
    RestsInTheEnd(s);
  }

  function TwoRoundsEnd(cfg: Config, s: State, inside: Inside): State
    requires |s.sh.tasks| == 1 && |s.lives| == 1
  {
    RoundEnd(cfg, RoundEnd(cfg, s, true, inside, false), true, inside, true)
  }

  /** Two successful executions, where only the second session is committed. */
  lemma TwoRounds(cfg: Config, s: State, inside: Inside)
    requires Tiny(s) && s.workers[0] == IDLE && s.sh.queue == multiset{0} && AllSettled(s.log)
    requires cfg.batchSize >= 1 && s.sh.tasks[0].retryCount + 2 < cfg.maxRetries
    requires inside.Straight? || s.sh.tasks[0].op == Upsert
    ensures var run, s' := Round(true, inside, false) + Round(true, inside, true), TwoRoundsEnd(cfg, s, inside);
            CanRun(cfg, s, run) && After(cfg, s, run) == s' && Tiny(s') && s'.workers == [IDLE] && s'.sh.queue == multiset{}
  {
    var s1 := RoundEnd(cfg, s, true, inside, false);
    RoundRuns(cfg, s, true, inside, false);
    SuccessRound(cfg, s, inside, false);
    RoundRuns(cfg, s1, true, inside, true);
    SuccessRound(cfg, s1, inside, true);
    RunInTwo(cfg, s, Round(true, inside, false), Round(true, inside, true));
  }

  /** And what they leave behind. */
  lemma TwoRoundsLeave(cfg: Config, s: State, inside: Inside)
    requires Tiny(s) && AllSettled(s.log) && Tiny(RoundEnd(cfg, s, true, inside, false))
    ensures var s' := TwoRoundsEnd(cfg, s, inside);
            && s'.log == s.log + [SettledEntry(s.sh.tasks[0], true, inside, false)]
                         + [SettledEntry(FailedAttempt(cfg, Executed(s.sh.tasks[0])), true, inside, true)]
            && |s'.lives| == 1 && s'.lives[0].executed == s.lives[0].executed + 2
            && s'.lives[0].refused == s.lives[0].refused && s'.lives[0].dropped == s.lives[0].dropped
            && s'.lives[0].absorbed == s.lives[0].absorbed && s'.lives[0].reported == s.lives[0].reported
            && s'.sh.metrics == s.sh.metrics.(completed := s.sh.metrics.completed + 2)
  {
    var s1 := RoundEnd(cfg, s, true, inside, false);
    SuccessRound(cfg, s, inside, false);
    RoundLog(cfg, s, true, inside, false);
    SuccessRound(cfg, s1, inside, true);
    RoundLog(cfg, s1, true, inside, true);
  }

  lemma UpdateEnds(cfg: Config, s: State)
    requires Tiny(s) && s.log == [] && Tiny(RoundEnd(cfg, s, true, Straight, false))
    requires s.sh.tasks[0].op == Update && NamesARow(Update, s.sh.tasks[0].data)
    ensures TwoRoundsEnd(cfg, s, Straight).log
            == [Attempt(0, 0, true, true, false, Discarded, RolledBack), Attempt(0, 0, true, false, false, Durable, Committed)]
  {
    TwoRoundsLeave(cfg, s, Straight);
    UpdateEntries(cfg, s.sh.tasks[0]);
  }

  /** An upsert whose row cannot be built, and that names none to update instead, is counted as completed. */
  lemma UpsertFallsBackOnNothing(cfg: Config, s0: State, model: string, data: Fields)
    requires Initial(s0) && |s0.workers| == 1 && cfg.maxQueueSize >= 1 && cfg.batchSize >= 1
    requires !("id" in data && data["id"] != 0) && !("file_id" in data && data["file_id"] != 0)
    ensures var run := Beginning(Upsert, model, data) + Round(true, FallsBack, true);
            && CanRun(cfg, s0, run)
            && var s := After(cfg, s0, run);
               |s.lives| == 1 && s.sh.metrics.completed == 1 && s.sh.metrics.failed == 0 && SilentlyLost(s, 0)
  {
    BeginningRuns(cfg, s0, Upsert, model, data);
    var s1 := Begun(s0, Upsert, model, data);
    var s2 := RoundEnd(cfg, s1, true, FallsBack, true);
    RoundRuns(cfg, s1, true, FallsBack, true);
    SuccessRound(cfg, s1, FallsBack, true);
    RoundLog(cfg, s1, true, FallsBack, true);
    RunInTwo(cfg, s0, Beginning(Upsert, model, data), Round(true, FallsBack, true));
    NothingNamedIsDurable(s2);
  }

  lemma RoundTally(cfg: Config, s: State, ok: bool, inside: Inside, commits: bool)
    requires Tiny(s) && AllSettled(s.log)
    ensures var s' := RoundEnd(cfg, s, ok, inside, commits);
            && Tally(s'.log, Succeeded(0)) == Tally(s.log, Succeeded(0)) + (if ok && commits then 1 else 0)
            && Tally(s'.log, MadeDurable(0))
               == Tally(s.log, MadeDurable(0)) + (if inside.CommitsEarly? || (ok && commits) then 1 else 0)
            && Tally(s'.log, With(0, false, RolledBack))
               == Tally(s.log, With(0, false, RolledBack)) + (if !ok && !commits then 1 else 0)
            && AllSettled(s'.log)
  {
    RoundLog(cfg, s, ok, inside, commits);
    var a := SettledEntry(s.sh.tasks[0], ok, inside, commits);
    TallyAppend(s.log, a, Succeeded(0));
    TallyAppend(s.log, a, MadeDurable(0));
    TallyAppend(s.log, a, With(0, false, RolledBack));
  }

  /** A double failure makes a task run twice to a committed success. */
  lemma TaskIsCommittedTwice(cfg: Config, s0: State, op: Operation, model: string, data: Fields)
    requires Initial(s0) && |s0.workers| == 1
    requires cfg.maxQueueSize >= 1 && cfg.batchSize >= 1 && cfg.maxRetries >= 3
    ensures var run := Beginning(op, model, data)
                       + (Round(false, Straight, false) + (Round(true, Straight, true) + Round(true, Straight, true)));
            CanRun(cfg, s0, run) && Tally(After(cfg, s0, run).log, Succeeded(0)) == 2
  {
    BeginningRuns(cfg, s0, op, model, data);
    var s1 := Begun(s0, op, model, data);
    RoundRuns(cfg, s1, false, Straight, false);
    var s2 := RoundEnd(cfg, s1, false, Straight, false);
    RoundTally(cfg, s1, false, Straight, false);
    TwoCommits(cfg, s2);
    RunInTwo(cfg, s1, Round(false, Straight, false), Round(true, Straight, true) + Round(true, Straight, true));
    RunInTwo(cfg, s0, Beginning(op, model, data),
             Round(false, Straight, false) + (Round(true, Straight, true) + Round(true, Straight, true)));
  }

  lemma TwoCommits(cfg: Config, s: State)
    requires Tiny(s) && s.workers[0] == IDLE && s.sh.queue == multiset{0, 0} && cfg.batchSize >= 1 && AllSettled(s.log)
    ensures var run := Round(true, Straight, true) + Round(true, Straight, true);
            CanRun(cfg, s, run) && Tally(After(cfg, s, run).log, Succeeded(0)) == Tally(s.log, Succeeded(0)) + 2
  {
    RoundRuns(cfg, s, true, Straight, true);
    var s1 := RoundEnd(cfg, s, true, Straight, true);
    SuccessRound(cfg, s, Straight, true);
    RoundTally(cfg, s, true, Straight, true);
    RoundRuns(cfg, s1, true, Straight, true);
    RunInTwo(cfg, s, Round(true, Straight, true), Round(true, Straight, true));
    RoundTally(cfg, s1, true, Straight, true);
  }

  /** Without any failed execution: an upsert that commits by itself is durable, and is retried with its session. */
  lemma UpsertIsWrittenTwice(cfg: Config, s0: State, model: string, data: Fields)
    requires Initial(s0) && |s0.workers| == 1
    requires cfg.maxQueueSize >= 1 && cfg.batchSize >= 1 && cfg.maxRetries >= 3
    ensures var run := Beginning(Upsert, model, data) + (Round(true, CommitsEarly, false) + Round(true, CommitsEarly, true));
            && CanRun(cfg, s0, run)
            && var log := After(cfg, s0, run).log;
               Tally(log, MadeDurable(0)) == 2 && Tally(log, Succeeded(0)) == 1 && Tally(log, With(0, false, RolledBack)) == 0
  {
    BeginningRuns(cfg, s0, Upsert, model, data);
    var s1 := Begun(s0, Upsert, model, data);
    TwoRounds(cfg, s1, CommitsEarly);
    RoundRuns(cfg, s1, true, CommitsEarly, false);
    TwoRoundsLeave(cfg, s1, CommitsEarly);
    TwoEarlyCommits(s1.sh.tasks[0], FailedAttempt(cfg, Executed(s1.sh.tasks[0])));
    RunInTwo(cfg, s0, Beginning(Upsert, model, data), Round(true, CommitsEarly, false) + Round(true, CommitsEarly, true));
  }

  lemma TwoEarlyCommits(first: Task, second: Task)
    ensures var log := [] + [SettledEntry(first, true, CommitsEarly, false)] + [SettledEntry(second, true, CommitsEarly, true)];
            Tally(log, MadeDurable(0)) == 2 && Tally(log, Succeeded(0)) == 1 && Tally(log, With(0, false, RolledBack)) == 0
  {
    var a, b := SettledEntry(first, true, CommitsEarly, false), SettledEntry(second, true, CommitsEarly, true);
    TallyTwo(a, b, MadeDurable(0));
    TallyTwo(a, b, Succeeded(0));
    TallyTwo(a, b, With(0, false, RolledBack));
  }

  lemma TallyTwo(a: Attempt, b: Attempt, which: Attempt -> bool)
    ensures Tally([] + [a] + [b], which) == (if which(a) then 1 else 0) + if which(b) then 1 else 0
  {
    TallyAppend([], a, which);
    TallyAppend([] + [a], b, which);
  }

  // ----- Two tasks in one session -----

  /** An insert and an upsert for the same model, queued one after the other. */
  function BothBegun(s: State, model: string, a: Fields, b: Fields): State {
    var second := Task(-1, 2, Upsert, model, b, 0, "id2");
    s.(sh := Shared([NewTaskOf(Insert, model, a), second], multiset{0, 1}, map[], Metrics(2, 0, 0, 0),
                    s.sh.registry + {model}),
       lives := [Life(0, [a], false, false, true, false, false, 0, None, 0),
                 Life(0, [b], false, false, true, false, false, 0, None, 0)])
  }

  function BeginningBoth(model: string, a: Fields, b: Fields): seq<Label> {
    Beginning(Insert, model, a) + ([Create(0, Upsert, model, b, Normal, None, "id2")] + [Push(0)])
  }

  lemma BeginningBothRuns(cfg: Config, s: State, model: string, a: Fields, b: Fields)
    requires Initial(s) && |s.workers| == 1 && cfg.maxQueueSize >= 2
    ensures CanRun(cfg, s, BeginningBoth(model, a, b))
    ensures After(cfg, s, BeginningBoth(model, a, b)) == BothBegun(s, model, a, b) && Solo(BothBegun(s, model, a, b))
  {
    BeginningRuns(cfg, s, Insert, model, a);
    SecondBegun(cfg, s, model, a, b);
    RunInTwo(cfg, s, Beginning(Insert, model, a), [Create(0, Upsert, model, b, Normal, None, "id2")] + [Push(0)]);
  }

  lemma SecondBegun(cfg: Config, s: State, model: string, a: Fields, b: Fields)
    requires Initial(s) && |s.workers| == 1 && cfg.maxQueueSize >= 2
    ensures var s1, run := Begun(s, Insert, model, a), [Create(0, Upsert, model, b, Normal, None, "id2")] + [Push(0)];
            CanRun(cfg, s1, run) && After(cfg, s1, run) == BothBegun(s, model, a, b) && Solo(BothBegun(s, model, a, b))
  {
    var s1, create := Begun(s, Insert, model, a), Create(0, Upsert, model, b, Normal, None, "id2");
    var s2 := Apply(cfg, s1, create);
    assert s2.sh.tasks == BothBegun(s, model, a, b).sh.tasks;
    assert s2.producers == map[0 := AtPush(1)];
    assert s2.lives == s1.lives + [Life(0, [b], false, false, false, false, false, 0, None, 0)];
    var s3 := Apply(cfg, s2, Push(0));
    assert s3.sh.tasks == s2.sh.tasks && s3.producers == map[];
    assert s3.sh.queue == multiset{0, 1};
    assert s3.lives == BothBegun(s, model, a, b).lives;
    RunOne(cfg, s2, Push(0), []);
    assert [Push(0)] + [] == [Push(0)];
    RunOne(cfg, s1, create, [Push(0)]);
  }

  /** Both tasks taken into one batch and its session opened. */
  function BothOpened(s: State): State
    requires |s.lives| == 2
  {
    Taken(Taken(s, [], 0), [0], 1).(workers := [InSession([0, 1], [], [])])
  }

  function OpeningBoth(): seq<Label> {
    (Taking(0) + Taking(1)) + Starting()
  }

  lemma OpeningBothRuns(cfg: Config, s: State)
    requires Solo(s) && |s.sh.tasks| == 2 && s.workers[0] == IDLE && s.sh.queue == multiset{0, 1} && cfg.batchSize >= 2
    requires Precedes(s.sh.tasks[0], s.sh.tasks[1])
    ensures CanRun(cfg, s, OpeningBoth()) && After(cfg, s, OpeningBoth()) == BothOpened(s) && Solo(BothOpened(s))
  {
    TakingBothRuns(cfg, s);
    StartingRuns(cfg, Taken(Taken(s, [], 0), [0], 1), [0, 1]);
    RunInTwo(cfg, s, Taking(0) + Taking(1), Starting());
  }

  lemma TakingBothRuns(cfg: Config, s: State)
    requires Solo(s) && |s.sh.tasks| == 2 && s.workers[0] == IDLE && s.sh.queue == multiset{0, 1} && cfg.batchSize >= 2
    requires Precedes(s.sh.tasks[0], s.sh.tasks[1])
    ensures var run, s' := Taking(0) + Taking(1), Taken(Taken(s, [], 0), [0], 1);
            CanRun(cfg, s, run) && After(cfg, s, run) == s' && Solo(s') && s'.workers[0] == Gathering([0, 1], None)
  {
    TakingRuns(cfg, s, [], 0);
    assert [] + [0] == [0] && [0] + [1] == [0, 1];
    var s1 := Taken(s, [], 0);
    assert s1.sh.queue == multiset{1};
    TakingRuns(cfg, s1, [0], 1);
    RunInTwo(cfg, s, Taking(0), Taking(1));
  }

  function Undoing(): seq<Label> {
    [Execute(0, true, Straight)] + ([Execute(0, true, FallsBack)] + [Commit(0, true)])
  }

  /** The session: the insert succeeds, the upsert falls back, the commit succeeds. */
  lemma UndoingRuns(cfg: Config, s: State)
    requires Solo(s) && |s.sh.tasks| == 2 && s.workers[0] == InSession([0, 1], [], []) && s.log == []
    requires s.sh.tasks[0].op == Insert && s.sh.tasks[1].op == Upsert && 0 !in s.sh.queue
    ensures CanRun(cfg, s, Undoing())
    ensures var s' := After(cfg, s, Undoing());
            && s'.workers == [IDLE] && s'.producers == map[] && s'.sh.queue == s.sh.queue && |s'.lives| == 2
            && s'.log == [Attempt(0, 0, true, true, false, Discarded, Committed),
                          Attempt(1, 0, true, NamesToFallBackOn(s.sh.tasks[1].data), true, Durable, Committed)]
            && s'.lives[0].absorbed == s.lives[0].absorbed && s'.lives[0].reported == s.lives[0].reported
            && s'.sh.metrics == s.sh.metrics.(completed := s.sh.metrics.completed + 2)
  {
    ExecuteStep(cfg, s, true, Straight);
    var s1 := Ran(cfg, s, true, Straight);
    FirstExecuted(cfg, s);
    UndoingEnds(cfg, s1);
    RunOne(cfg, s, Execute(0, true, Straight), [Execute(0, true, FallsBack)] + [Commit(0, true)]);
  }

  lemma UndoingEnds(cfg: Config, s: State)
    requires Solo(s) && |s.sh.tasks| == 2 && s.workers[0] == InSession([1], [0], []) && s.sh.tasks[1].op == Upsert
    requires s.log == [Attempt(0, 0, true, true, false, InTransaction, Unsettled)]
    ensures var run := [Execute(0, true, FallsBack)] + [Commit(0, true)];
            && CanRun(cfg, s, run)
            && var s' := After(cfg, s, run);
               && s'.workers == [IDLE] && s'.producers == map[] && s'.sh.queue == s.sh.queue
               && s'.log == [Attempt(0, 0, true, true, false, Discarded, Committed),
                             Attempt(1, 0, true, NamesToFallBackOn(s.sh.tasks[1].data), true, Durable, Committed)]
               && |s'.lives| == 2 && s'.lives[0] == s.lives[0]
               && s'.sh.metrics == s.sh.metrics.(completed := s.sh.metrics.completed + 1)
  {
    ExecuteStep(cfg, s, true, FallsBack);
    var s1 := Ran(cfg, s, true, FallsBack);
    SecondExecuted(cfg, s);
    CommitStep(cfg, s1, [0, 1], true);
    RunOne(cfg, s1, Commit(0, true), []);
    assert [Commit(0, true)] + [] == [Commit(0, true)];
    RunOne(cfg, s, Execute(0, true, FallsBack), [Commit(0, true)]);
  }

  lemma FirstExecuted(cfg: Config, s: State)
    requires Solo(s) && |s.sh.tasks| == 2 && s.workers[0] == InSession([0, 1], [], []) && s.log == []
    requires s.sh.tasks[0].op == Insert
    ensures AtTask(s, 0)
    ensures var s1 := Ran(cfg, s, true, Straight);
            && s1.workers == [InSession([1], [0], [])] && s1.sh.tasks == s.sh.tasks && s1.sh.queue == s.sh.queue
            && s1.log == [Attempt(0, 0, true, true, false, InTransaction, Unsettled)] && |s1.lives| == 2
            && s1.lives[0].absorbed == s.lives[0].absorbed && s1.lives[0].reported == s.lives[0].reported
            && s1.sh.metrics == s.sh.metrics.(completed := s.sh.metrics.completed + 1)
  {
    assert [0, 1][1..] == [1] && [] + [0] == [0];
  }

  lemma SecondExecuted(cfg: Config, s: State)
    requires Solo(s) && |s.sh.tasks| == 2 && s.workers[0] == InSession([1], [0], [])
    requires s.log == [Attempt(0, 0, true, true, false, InTransaction, Unsettled)]
    ensures AtTask(s, 0)
    ensures var s2 := Ran(cfg, s, true, FallsBack);
            && s2.workers == [InSession([], [0, 1], [])] && s2.sh.queue == s.sh.queue
            && s2.log == [Attempt(0, 0, true, true, false, Discarded, Unsettled),
                          Attempt(1, 0, true, NamesToFallBackOn(s.sh.tasks[1].data), true, InTransaction, Unsettled)]
            && |s2.lives| == 2 && s2.lives[0] == s.lives[0]
            && s2.sh.metrics == s.sh.metrics.(completed := s.sh.metrics.completed + 1)
  {
    assert [1][1..] == [] && [0] + [1] == [0, 1];
  }

  /**
   An upsert that falls back rolls its session back: the insert before it is undone, and lost although
   it is counted as completed.
   */
  lemma UpsertUndoesItsSession(cfg: Config, s0: State, model: string, a: Fields, b: Fields)
    requires Initial(s0) && |s0.workers| == 1 && cfg.maxQueueSize >= 2 && cfg.batchSize >= 2
    ensures var run := BeginningBoth(model, a, b) + (OpeningBoth() + Undoing());
            && CanRun(cfg, s0, run)
            && var s := After(cfg, s0, run);
               && |s.lives| == 2 && SilentlyLost(s, 0) && WasUndone(s, 0)
               && s.sh.metrics.completed == 2 && s.sh.metrics.failed == 0
  {
    BeginningBothRuns(cfg, s0, model, a, b);
    var s1 := BothBegun(s0, model, a, b);
    OpeningBothRuns(cfg, s1);
    var s2 := BothOpened(s1);
    UndoingRuns(cfg, s2);
    var s := After(cfg, s2, Undoing());
    RunInTwo(cfg, s1, OpeningBoth(), Undoing());
    RunInTwo(cfg, s0, BeginningBoth(model, a, b), OpeningBoth() + Undoing());
    UndoneInTheEnd(s);
  }

  lemma UndoneInTheEnd(s: State)
    requires s.workers == [IDLE] && s.producers == map[] && 0 !in s.sh.queue && |s.lives| == 2
    requires |s.log| == 2 && s.log[0] == Attempt(0, 0, true, true, false, Discarded, Committed) && s.log[1].task == 1
    requires !s.lives[0].absorbed && s.lives[0].reported == 0
    ensures SilentlyLost(s, 0) && WasUndone(s, 0)
  {
    IdleHoldsNothing(Any, s.workers, 0);
    assert s.log[0] in s.log && Succeeded(0)(s.log[0]);
  }

  // ----- A full queue -----

  function Fill(n: nat): seq<Label> {
    if n == 0 then [] else Fill(n - 1) + ([Create(0, Insert, "m", map[], Normal, None, "id")] + [Push(0)])
  }

  /** Submissions without a key fill the queue to any size up to its maximum. */
  lemma {:induction false} QueueFillsUp(cfg: Config, s0: State, n: nat)
    requires Initial(s0) && n <= cfg.maxQueueSize
    ensures CanRun(cfg, s0, Fill(n))
    ensures var s := After(cfg, s0, Fill(n));
            |s.sh.queue| == n && s.producers == map[] && s.sh.cache == map[] && |s.lives| == |s.sh.tasks|
  {
    if n > 0 {
      QueueFillsUp(cfg, s0, n - 1);
      var s := After(cfg, s0, Fill(n - 1));
      OneMore(cfg, s);
      RunInTwo(cfg, s0, Fill(n - 1), [Create(0, Insert, "m", map[], Normal, None, "id")] + [Push(0)]);
    }
  }

  lemma OneMore(cfg: Config, s: State)
    requires |s.lives| == |s.sh.tasks| && s.producers == map[] && s.sh.cache == map[] && !IsFull(cfg, s)
    ensures var run := [Create(0, Insert, "m", map[], Normal, None, "id")] + [Push(0)];
            && CanRun(cfg, s, run)
            && var s' := After(cfg, s, run);
               && |s'.sh.queue| == |s.sh.queue| + 1 && s'.producers == map[] && s'.sh.cache == map[]
               && |s'.lives| == |s'.sh.tasks|
  {
    var create := Create(0, Insert, "m", map[], Normal, None, "id");
    var s1 := Apply(cfg, s, create);
    assert s1.producers == map[0 := AtPush(|s.sh.tasks|)];
    TasksGrow(cfg, s, create);
    TasksGrow(cfg, s1, Push(0));
    var s2 := Apply(cfg, s1, Push(0));
    assert s2.producers == map[];
    RunOne(cfg, s1, Push(0), []);
    assert [Push(0)] + [] == [Push(0)];
    RunOne(cfg, s, create, [Push(0)]);
  }

  /** So with every maximum the refused submission that spoils its merge key does occur. */
  lemma RefusalIsReachable(cfg: Config, s0: State, n: nat, data: Fields, key: string)
    requires Initial(s0) && cfg.maxQueueSize == n && key != ""
    ensures var run := Fill(n) + [Create(0, Update, "m", data, Normal, Some(key), "id"), Merge(0), Push(0)];
            && CanRun(cfg, s0, run)
            && var s := After(cfg, s0, run);
               key in s.sh.cache && s.sh.cache[key] < |s.lives| && s.lives[s.sh.cache[key]].refused
  {
    QueueFillsUp(cfg, s0, n);
    RefusedTaskStaysCached(cfg, After(cfg, s0, Fill(n)), 0, Update, "m", data, Normal, key, "id");
    RunInTwo(cfg, s0, Fill(n), [Create(0, Update, "m", data, Normal, Some(key), "id"), Merge(0), Push(0)]);
  }
}
