/** The queue object of app/core/db_write_queue.py: its lock-protected sections, in place, and how they match the steps. */
module WriteQueueObject {
  import opened Prelude
  import opened WriteQueue
  import opened WriteQueueMoves
  import opened WriteQueueDrain

  // ----- The sections as functions on the shared part -----

  function CreateOn(sh: Shared, op: Operation, model: string, data: Fields, level: Level, taskId: string): Shared {
    sh.(tasks := sh.tasks + [Task(-LevelValue(level), |sh.tasks| + 1, op, model, data, 0, taskId)])
  }

  function MergeOn(sh: Shared, t: nat, key: string): Shared
    requires t < |sh.tasks| && (key in sh.cache ==> sh.cache[key] < |sh.tasks|)
  {
    if key in sh.cache then
      var u := sh.cache[key];
      sh.(tasks := sh.tasks[u := Merged(sh.tasks[u], sh.tasks[t].data)],
          metrics := sh.metrics.(merged := sh.metrics.merged + 1))
    else
      sh.(cache := sh.cache[key := t])
  }

  function PushOn(cfg: Config, sh: Shared, t: nat): Shared {
    if |sh.queue| >= cfg.maxQueueSize then sh
    else sh.(queue := sh.queue + multiset{t}, metrics := sh.metrics.(total := sh.metrics.total + 1))
  }

  /** A popped task leaves the queue, and the merge cache with everything that has its id. */
  function PopOn(sh: Shared, t: nat): Shared
    requires t < |sh.tasks|
  {
    sh.(queue := sh.queue - multiset{t}, cache := Uncached(sh, t))
  }

  function FailOn(cfg: Config, sh: Shared, t: nat): Shared
    requires t < |sh.tasks|
  {
    var sh' := sh.(tasks := sh.tasks[t := FailedAttempt(cfg, sh.tasks[t])]);
    if Exhausted(cfg, sh.tasks[t]) then sh'.(metrics := sh.metrics.(failed := sh.metrics.failed + 1))
    else sh'.(queue := sh.queue + multiset{t})
  }

  function ExecuteOn(cfg: Config, sh: Shared, t: nat, ok: bool): Shared
    requires t < |sh.tasks|
  {
    var sh' := sh.(tasks := sh.tasks[t := Executed(sh.tasks[t])]);
    if ok then sh'.(metrics := sh.metrics.(completed := sh.metrics.completed + 1)) else FailOn(cfg, sh', t)
  }

  function FailAll(cfg: Config, sh: Shared, ts: seq<nat>): (r: Shared)
    requires InRange(sh, ts)
    ensures |r.tasks| == |sh.tasks| && r.registry == sh.registry && r.cache == sh.cache
    decreases |ts|
  {
    if ts == [] then sh else FailAll(cfg, FailOn(cfg, sh, ts[0]), ts[1..])
  }

  function ExecuteAll(cfg: Config, sh: Shared, ts: seq<nat>, oks: seq<bool>): (r: Shared)
    requires InRange(sh, ts) && |oks| == |ts|
    ensures |r.tasks| == |sh.tasks| && r.registry == sh.registry && r.cache == sh.cache
    decreases |ts|
  {
    if ts == [] then sh else ExecuteAll(cfg, ExecuteOn(cfg, sh, ts[0], oks[0]), ts[1..], oks[1..])
  }

  predicate InRange(sh: Shared, ts: seq<nat>) {
    forall i :: 0 <= i < |ts| ==> ts[i] < |sh.tasks|
  }

  /** What the database does to one group: whether the session opens, each task succeeds, the commit succeeds. */
  datatype Outcome = Outcome(opens: bool, oks: seq<bool>, commits: bool)

  function GroupOn(cfg: Config, sh: Shared, g: seq<nat>, o: Outcome): (r: Shared)
    requires InRange(sh, g) && |o.oks| == |g|
    ensures |r.tasks| == |sh.tasks| && r.registry == sh.registry && r.cache == sh.cache
  {
    if g == [] then sh
    else if sh.tasks[g[0]].model !in sh.registry then sh.(metrics := sh.metrics.(failed := sh.metrics.failed + |g|))
    else if !o.opens then FailAll(cfg, sh, g)
    else
      var done := ExecuteAll(cfg, sh, g, o.oks);
      if o.commits then done else FailAll(cfg, done, g)
  }

  /** There is an outcome for each group, with a result for each of its tasks. */
  predicate Fits(groups: seq<seq<nat>>, outcomes: seq<Outcome>) {
    |outcomes| == |groups| && forall i :: 0 <= i < |groups| ==> |outcomes[i].oks| == |groups[i]|
  }

  predicate AllInRange(sh: Shared, groups: seq<seq<nat>>) {
    forall i, j :: 0 <= i < |groups| && 0 <= j < |groups[i]| ==> groups[i][j] < |sh.tasks|
  }

  function BatchOn(cfg: Config, sh: Shared, groups: seq<seq<nat>>, outcomes: seq<Outcome>): Shared
    requires Fits(groups, outcomes) && AllInRange(sh, groups)
    decreases |groups|
  {
    if groups == [] then sh
    else
      assert forall i :: 0 <= i < |groups| - 1 ==> groups[1..][i] == groups[i + 1] && outcomes[1..][i] == outcomes[i + 1];
      BatchOn(cfg, GroupOn(cfg, sh, groups[0], outcomes[0]), groups[1..], outcomes[1..])
  }

  lemma FilterInRange(sh: Shared, keep: nat -> bool, ts: seq<nat>)
    requires InRange(sh, ts)
    ensures InRange(sh, Filter(keep, ts))
  {
    var kept := Filter(keep, ts);
    forall i | 0 <= i < |kept| ensures kept[i] < |sh.tasks| {
      assert kept[i] in ts;
    }
  }

  lemma GroupsInRange(sh: Shared, batch: seq<nat>)
    requires InRange(sh, batch)
    ensures var groups := GroupByModel(sh.tasks, batch);
            AllInRange(sh, groups) && forall i :: 0 <= i < |groups| ==> groups[i] != []
  {
    var groups := GroupByModel(sh.tasks, batch);
    GroupingIsPermutation(sh.tasks, batch);
    forall i | 0 <= i < |groups| ensures groups[i] != [] && InRange(sh, groups[i]) {
      assert IsGroup(sh.tasks, groups[i], batch);
      FilterInRange(sh, HasModel(sh.tasks, sh.tasks[groups[i][0]].model), batch);
    }
    forall i, j | 0 <= i < |groups| && 0 <= j < |groups[i]| ensures groups[i][j] < |sh.tasks| {
      assert InRange(sh, groups[i]);
    }
  }

  function ExecuteBatchOn(cfg: Config, sh: Shared, batch: seq<nat>, outcomes: seq<Outcome>): Shared
    requires InRange(sh, batch) && Fits(GroupByModel(sh.tasks, batch), outcomes)
  {
    GroupsInRange(sh, batch);
    BatchOn(cfg, sh, GroupByModel(sh.tasks, batch), outcomes)
  }

  // ----- The sections are the steps -----

  /** Each section does to the shared part what its step of the state machine does. */
  lemma SectionsAreSteps(cfg: Config, s: State, l: Label)
    requires Enabled(cfg, s, l) && ProducersOk(s) && QueueOk(s)
    ensures l.Create? ==> Apply(cfg, s, l).sh == CreateOn(s.sh, l.op, l.model, l.data, l.level, l.taskId)
    ensures l.Merge? ==> Apply(cfg, s, l).sh == MergeOn(s.sh, s.producers[l.p].task, s.producers[l.p].key)
    ensures l.Push? ==> Apply(cfg, s, l).sh == PushOn(cfg, s.sh, s.producers[l.p].task)
  {
    var tasks' := TasksAfter(cfg, s, l);
    if l.Merge? && s.producers[l.p].key in s.sh.cache {
      var u := s.sh.cache[s.producers[l.p].key];
      assert tasks' == s.sh.tasks[u := Merged(s.sh.tasks[u], s.sh.tasks[s.producers[l.p].task].data)];
    } else if l.Create? {
      assert tasks' == s.sh.tasks + [NewTask(s, l)];
    } else if l.Merge? || l.Push? {
      assert tasks' == s.sh.tasks;
    }
  }

  lemma AttemptsAreSteps(cfg: Config, s: State, l: Label)
    requires Enabled(cfg, s, l)
    ensures l.Execute? ==> Apply(cfg, s, l).sh == ExecuteOn(cfg, s.sh, Current(s, l.w), l.ok)
    ensures l.Retry? ==> Apply(cfg, s, l).sh == FailOn(cfg, s.sh, Current(s, l.w))
  {
    if l.Execute? || l.Retry? {
      var t := Current(s, l.w);
      assert TasksAfter(cfg, s, l) == s.sh.tasks[t := TaskAfter(cfg, s, l, t)];
      if l.Execute? {
        assert s.sh.tasks[t := Executed(s.sh.tasks[t])][t := TaskAfter(cfg, s, l, t)] == s.sh.tasks[t := TaskAfter(cfg, s, l, t)];
      }
    }
  }

  /** When everything cached exists, only the ids decide. */
  lemma CachedExist(sh: Shared, t: nat)
    requires t < |sh.tasks| && forall k :: k in sh.cache ==> sh.cache[k] < |sh.tasks|
    ensures Uncached(sh, t) == map k | k in sh.cache && sh.tasks[sh.cache[k]].taskId != sh.tasks[t].taskId :: sh.cache[k]
  {
  }

  // ----- The object -----

  datatype Receipt = NotRunning | QueueFull | Accepted(taskId: string)

  class AsyncWriteQueue {
    const cfg: Config
    var running: bool
    var tasks: seq<Task>
    var queue: multiset<nat>
    var mergeCache: map<string, nat>
    var metrics: Metrics
    var registry: set<string>

    function View(): Shared
      reads this
    {
      Shared(tasks, queue, mergeCache, metrics, registry)
    }

    /** Everything queued or cached is a task that exists. */
    ghost predicate Ok()
      reads this
    {
      (forall t :: t in queue ==> t < |tasks|) && (forall k :: k in mergeCache ==> mergeCache[k] < |tasks|)
    }

    constructor (cfg: Config)
      ensures Ok() && this.cfg == cfg && !running
      ensures View() == Shared([], multiset{}, map[], Metrics(0, 0, 0, 0), {})
    {
      this.cfg := cfg;
      running, tasks, queue, mergeCache := false, [], multiset{}, map[];
      metrics, registry := Metrics(0, 0, 0, 0), {};
    }

    /** A submission that no other thread interrupts. A refusal leaves the new task in the merge cache. */
    method Submit(op: Operation, model: string, data: Fields, level: Level, mergeKey: Option<string>, taskId: string)
      returns (r: Receipt)
      requires Ok()
      modifies this
      ensures Ok() && running == old(running)
      ensures !running ==> r == NotRunning && View() == old(View())
      ensures running ==>
                var t, sh := |old(tasks)|, CreateOn(old(View()), op, model, data, level, taskId);
                if mergeKey.Some? && mergeKey.value != "" then
                  if mergeKey.value in old(mergeCache)
                  then View() == MergeOn(sh, t, mergeKey.value) && r == Accepted(old(tasks)[old(mergeCache)[mergeKey.value]].taskId)
                  else View() == PushOn(cfg, MergeOn(sh, t, mergeKey.value), t)
                       && r == if |old(queue)| >= cfg.maxQueueSize then QueueFull else Accepted(taskId)
                else
                  View() == PushOn(cfg, sh, t) && r == if |old(queue)| >= cfg.maxQueueSize then QueueFull else Accepted(taskId)
    {
      if !running {
        return NotRunning;
      }
      var t := CreateTask(op, model, data, level, taskId);
      if mergeKey.Some? && mergeKey.value != "" {
        var owner := MergeSection(t, mergeKey.value);
        if owner != t {
          return Accepted(tasks[owner].taskId);
        }
      }
      var pushed := PushSection(t);
      return if pushed then Accepted(taskId) else QueueFull;
    }

    method CreateTask(op: Operation, model: string, data: Fields, level: Level, taskId: string) returns (t: nat)
      requires Ok()
      modifies `tasks
      ensures Ok() && t == |old(tasks)| && View() == CreateOn(old(View()), op, model, data, level, taskId)
    {
      t := |tasks|;
      tasks := tasks + [Task(-LevelValue(level), t + 1, op, model, data, 0, taskId)];
    }

    /** Returns the task that carries the submission: an older one with this key, or `t` itself, now cached. */
    method MergeSection(t: nat, key: string) returns (owner: nat)
      requires Ok() && t < |tasks|
      modifies `tasks, `mergeCache, `metrics
      ensures Ok() && View() == MergeOn(old(View()), t, key)
      ensures owner == (if key in old(mergeCache) then old(mergeCache)[key] else t) && owner < |tasks| == |old(tasks)|
      ensures tasks[owner].taskId == old(tasks)[owner].taskId
    {
      if key in mergeCache {
        owner := mergeCache[key];
        tasks := tasks[owner := tasks[owner].(data := tasks[owner].data + tasks[t].data)];
        tasks := tasks[owner := tasks[owner].(retryCount := 0)];
        metrics := metrics.(merged := metrics.merged + 1);
      } else {
        mergeCache := mergeCache[key := t];
        owner := t;
      }
    }

    method PushSection(t: nat) returns (pushed: bool)
      requires Ok() && t < |tasks|
      modifies `queue, `metrics
      ensures Ok() && View() == PushOn(cfg, old(View()), t) && (pushed <==> |old(queue)| < cfg.maxQueueSize)
    {
      if |queue| >= cfg.maxQueueSize {
        return false;
      }
      queue := queue + multiset{t};
      metrics := metrics.(total := metrics.total + 1);
      return true;
    }

    /** Takes the least queued task out of the heap and of the merge cache. */
    method PopOne() returns (t: nat)
      requires Ok() && queue != multiset{}
      modifies `queue, `mergeCache
      ensures Ok() && IsLeast(old(View()), t) && View() == PopOn(old(View()), t)
    {
      ghost var before := View();
      ghost var least := LeastExists(tasks, queue);
      t :| t in queue && forall u :: u in queue ==> u < |tasks| && Precedes(tasks[t], tasks[u]);
      queue := queue - multiset{t};
      mergeCache := map k | k in mergeCache && tasks[mergeCache[k]].taskId != tasks[t].taskId :: mergeCache[k];
      CachedExist(before, t);
    }

    /**
     Pops until the batch is full, the deadline passes (`budget` pops) or the queue is empty. The
     batch is the least part of the queue, in order, and nothing cached has the id of a task in it.
     */
    method GetBatch(budget: nat) returns (batch: seq<nat>)
      requires Ok()
      modifies `queue, `mergeCache
      ensures Ok() && queue + multiset(batch) == old(queue) && LeastPart(tasks, batch, queue)
      ensures |batch| <= budget && (|batch| <= cfg.batchSize || batch == [])
      ensures |batch| == budget || |batch| >= cfg.batchSize || queue == multiset{}
      ensures mergeCache == Foreign(tasks, batch, old(mergeCache))
    {
      batch := [];
      assert mergeCache == Foreign(tasks, batch, mergeCache);
      while |batch| < cfg.batchSize && |batch| < budget && queue != multiset{}
        invariant Ok() && queue + multiset(batch) == old(queue) && LeastPart(tasks, batch, queue)
        invariant |batch| <= budget && (|batch| <= cfg.batchSize || batch == [])
        invariant mergeCache == Foreign(tasks, batch, old(mergeCache))
        decreases budget - |batch|
      {
        ghost var before := View();
        var t := PopOne();
        LeastPartExtend(tasks, batch, before.queue, t);
        ForeignExtend(before, batch, old(mergeCache), t);
        assert View() == PopOn(before, t);
        assert queue + multiset(batch + [t]) == old(queue) by {
          assert multiset(batch + [t]) == multiset(batch) + multiset{t};
        }
        batch := batch + [t];
      }
    }

    method GroupTasks(batch: seq<nat>) returns (groups: seq<seq<nat>>)
      requires forall i :: 0 <= i < |batch| ==> batch[i] < |tasks|
      ensures groups == GroupByModel(tasks, batch)
    {
      groups := [];
      for i := 0 to |batch|
        invariant groups == GroupByModel(tasks, batch[..i])
      {
        assert batch[..i + 1][..i] == batch[..i];
        var at := IndexOfModel(tasks, groups, tasks[batch[i]].model);
        if at.None? {
          groups := groups + [[batch[i]]];
        } else {
          groups := groups[at.value := groups[at.value] + [batch[i]]];
        }
      }
      assert batch[..|batch|] == batch;
    }

    method RetryTask(t: nat)
      requires Ok() && t < |tasks|
      modifies this
      ensures Ok() && running == old(running) && View() == FailOn(cfg, old(View()), t)
    {
      tasks := tasks[t := tasks[t].(retryCount := tasks[t].retryCount + 1)];
      if tasks[t].retryCount >= cfg.maxRetries {
        metrics := metrics.(failed := metrics.failed + 1);
        return;
      }
      tasks := tasks[t := tasks[t].(priority := Min(tasks[t].priority, -LevelValue(High)))];
      queue := queue + multiset{t};
    }

    method RetryAll(group: seq<nat>)
      requires Ok() && InRange(View(), group)
      modifies this
      ensures Ok() && running == old(running) && View() == FailAll(cfg, old(View()), group)
    {
      for i := 0 to |group|
        invariant Ok() && running == old(running) && |tasks| == |old(tasks)|
        invariant FailAll(cfg, old(View()), group) == FailAll(cfg, View(), group[i..])
      {
        assert group[i..][0] == group[i] && group[i..][1..] == group[i + 1..];
        RetryTask(group[i]);
      }
    }

    /** Each group of the batch in turn, whatever becomes of the others. */
    method ExecuteBatch(batch: seq<nat>, outcomes: seq<Outcome>)
      requires Ok() && InRange(View(), batch) && Fits(GroupByModel(tasks, batch), outcomes)
      modifies this
      ensures Ok() && running == old(running) && View() == ExecuteBatchOn(cfg, old(View()), batch, outcomes)
    {
      var groups := GroupTasks(batch);
      GroupsInRange(View(), batch);
      for i := 0 to |groups|
        invariant Ok() && running == old(running) && |tasks| == |old(tasks)|
        invariant BatchOn(cfg, old(View()), groups, outcomes) == BatchOn(cfg, View(), groups[i..], outcomes[i..])
      {
        assert groups[i..][0] == groups[i] && groups[i..][1..] == groups[i + 1..];
        assert outcomes[i..][0] == outcomes[i] && outcomes[i..][1..] == outcomes[i + 1..];
        ExecuteModelBatch(groups[i], outcomes[i]);
      }
    }

    /** One group of a batch: reject it, or run it in a session and retry what fails, all of it when the commit fails. */
    method ExecuteModelBatch(group: seq<nat>, o: Outcome)
      requires Ok() && group != [] && InRange(View(), group) && |o.oks| == |group|
      modifies this
      ensures Ok() && running == old(running) && View() == GroupOn(cfg, old(View()), group, o)
    {
      if tasks[group[0]].model !in registry {
        for i := 0 to |group|
          invariant Ok() && running == old(running)
          invariant View() == old(View()).(metrics := old(metrics).(failed := old(metrics).failed + i))
        {
          metrics := metrics.(failed := metrics.failed + 1);
        }
        return;
      }
      if o.opens {
        for i := 0 to |group|
          invariant Ok() && running == old(running) && |tasks| == |old(tasks)|
          invariant ExecuteAll(cfg, old(View()), group, o.oks) == ExecuteAll(cfg, View(), group[i..], o.oks[i..])
        {
          assert group[i..][0] == group[i] && group[i..][1..] == group[i + 1..];
          assert o.oks[i..][0] == o.oks[i] && o.oks[i..][1..] == o.oks[i + 1..];
          ExecuteOne(group[i], o.oks[i]);
        }
      }
      if !o.opens || !o.commits {
        RetryAll(group);
      }
    }

    method ExecuteOne(t: nat, ok: bool)
      requires Ok() && t < |tasks|
      modifies this
      ensures Ok() && running == old(running) && View() == ExecuteOn(cfg, old(View()), t, ok)
    {
      if tasks[t].op == Update {
        tasks := tasks[t := tasks[t].(data := tasks[t].data - {"id"})];
      }
      if ok {
        metrics := metrics.(completed := metrics.completed + 1);
      } else {
        RetryTask(t);
      }
    }

    method Clear() returns (count: nat)
      requires Ok()
      modifies this
      ensures Ok() && running == old(running) && count == |old(queue)|
      ensures View() == old(View()).(queue := multiset{}, cache := map[])
    {
      count := |queue|;
      queue, mergeCache := multiset{}, map[];
    }
  }

  /** `batch` is in heap order and comes before everything in `rest`. */
  ghost predicate LeastPart(tasks: seq<Task>, batch: seq<nat>, rest: multiset<nat>) {
    && (forall i :: 0 <= i < |batch| ==> batch[i] < |tasks|)
    && (forall i, j :: 0 <= i < j < |batch| && batch[i] < |tasks| && batch[j] < |tasks| ==>
          Precedes(tasks[batch[i]], tasks[batch[j]]))
    && (forall i, u :: 0 <= i < |batch| && batch[i] < |tasks| && u in rest ==>
          u < |tasks| && Precedes(tasks[batch[i]], tasks[u]))
  }

  lemma LeastPartExtend(tasks: seq<Task>, batch: seq<nat>, q: multiset<nat>, t: nat)
    requires LeastPart(tasks, batch, q) && t in q && t < |tasks|
    requires forall u :: u in q ==> u < |tasks| && Precedes(tasks[t], tasks[u])
    ensures LeastPart(tasks, batch + [t], q - multiset{t})
  {
    forall u | u in q - multiset{t} ensures u in q {}
  }

  predicate HasTaskIdOf(tasks: seq<Task>, batch: seq<nat>, u: nat) {
    exists i :: 0 <= i < |batch| && batch[i] < |tasks| && u < |tasks| && tasks[u].taskId == tasks[batch[i]].taskId
  }

  /** The cache without every entry whose task shares its id with a task of the batch. */
  function Foreign(tasks: seq<Task>, batch: seq<nat>, cache: map<string, nat>): map<string, nat> {
    map k | k in cache && !HasTaskIdOf(tasks, batch, cache[k]) :: cache[k]
  }

  lemma ForeignExtend(sh: Shared, batch: seq<nat>, cache: map<string, nat>, t: nat)
    requires t < |sh.tasks| && sh.cache == Foreign(sh.tasks, batch, cache)
    ensures Foreign(sh.tasks, batch + [t], cache) == Uncached(sh, t)
  {
    forall k | k in cache
      ensures HasTaskIdOf(sh.tasks, batch + [t], cache[k])
              <==> HasTaskIdOf(sh.tasks, batch, cache[k])
                   || (cache[k] < |sh.tasks| && sh.tasks[cache[k]].taskId == sh.tasks[t].taskId)
    {
      var longer := batch + [t];
      assert longer[|batch|] == t;
      assert forall i :: 0 <= i < |batch| ==> longer[i] == batch[i];
    }
  }
}
