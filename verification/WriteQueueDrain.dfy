/** Draining: with no new submissions the workers finish. And what a refused submission does to its merge key. */
module WriteQueueDrain {
  import opened Prelude
  import opened WriteQueue
  import opened WriteQueueMoves
  import opened WriteQueueSafety
  import opened WriteQueueRuns

  // ----- A measure that every worker step lowers -----

  function Room(cfg: Config, task: Task): nat {
    if task.retryCount < cfg.maxRetries then cfg.maxRetries - task.retryCount else 0
  }

  function TotalRoom(cfg: Config, tasks: seq<Task>): nat {
    Sum(seq(|tasks|, i requires 0 <= i < |tasks| => Room(cfg, tasks[i])))
  }

  function WorkOf(w: Worker): nat {
    match w
    case Gathering(batch, popped) => 5 * |batch| + if popped.Some? then 6 else 0
    case Running(groups) => 4 * |Concat(groups)|
    case InSession(todo, done, rest) => 3 * |todo| + 2 * |done| + 4 * |Concat(rest)|
    case Retrying(todo, rest) => |todo| + 4 * |Concat(rest)|
  }

  function TotalWork(ws: seq<Worker>): nat {
    Sum(seq(|ws|, i requires 0 <= i < |ws| => WorkOf(ws[i])))
  }

  /** A bound on the number of worker steps that can still happen without new submissions. */
  function Work(cfg: Config, s: State): nat {
    7 * TotalRoom(cfg, s.sh.tasks) + 7 * |s.sh.queue| + TotalWork(s.workers)
  }

  lemma TotalWorkUpdate(ws: seq<Worker>, i: nat, x: Worker)
    requires i < |ws|
    ensures TotalWork(ws[i := x]) + WorkOf(ws[i]) == TotalWork(ws) + WorkOf(x)
  {
    var ns, xs := seq(|ws|, i requires 0 <= i < |ws| => WorkOf(ws[i])), ws[i := x];
    SumUpdate(ns, i, WorkOf(x));
    assert ns[i := WorkOf(x)] == seq(|xs|, i requires 0 <= i < |xs| => WorkOf(xs[i]));
  }

  lemma NextGroupWork(rest: seq<seq<nat>>)
    ensures WorkOf(NextGroup(rest)) == 4 * |Concat(rest)|
  {
  }

  /** What the acting worker's own work loses in a step, not counting a task queued again. */
  lemma WorkerWorkDrops(cfg: Config, s: State, l: Label)
    requires Shape(s) && Enabled(cfg, s, l) && IsWorkerStep(l)
    ensures WorkOf(WorkerAfter(s, l)) + 1 <= WorkOf(s.workers[l.w]) + if l.Pop? then 7 else 0
  {
    var worker := s.workers[l.w];
    assert WellFormed(worker);
    match l
    case Seal(w) =>
      SealMoves(cfg, s, l, Any);
      assert Part(Any, worker) == worker.batch;
    case Reject(w) => NextGroupWork(worker.groups[1..]);
    case Commit(w, ok) => NextGroupWork(worker.rest);
    case Retry(w) => NextGroupWork(worker.rest);
    case _ =>
  }

  lemma TotalRoomUpdate(cfg: Config, tasks: seq<Task>, t: nat, task: Task)
    requires t < |tasks|
    ensures TotalRoom(cfg, tasks[t := task]) + Room(cfg, tasks[t]) == TotalRoom(cfg, tasks) + Room(cfg, task)
  {
    var rooms := seq(|tasks|, i requires 0 <= i < |tasks| => Room(cfg, tasks[i]));
    var tasks' := tasks[t := task];
    SumUpdate(rooms, t, Room(cfg, task));
    assert rooms[t := Room(cfg, task)] == seq(|tasks'|, i requires 0 <= i < |tasks'| => Room(cfg, tasks'[i]));
  }

  lemma RoomDrops(cfg: Config, s: State, l: Label)
    requires Enabled(cfg, s, l) && IsWorkerStep(l)
    ensures TotalRoom(cfg, TasksAfter(cfg, s, l)) <= TotalRoom(cfg, s.sh.tasks)
    ensures forall t :: Requeues(cfg, s, l, t) ==> TotalRoom(cfg, TasksAfter(cfg, s, l)) + 1 <= TotalRoom(cfg, s.sh.tasks)
  {
    var tasks, tasks' := s.sh.tasks, TasksAfter(cfg, s, l);
    if l.Execute? || l.Retry? {
      var t := Current(s, l.w);
      TotalRoomUpdate(cfg, tasks, t, tasks'[t]);
      assert tasks' == tasks[t := tasks'[t]];
    } else {
      assert tasks' == tasks;
    }
  }

  lemma QueueSizeUnderWorkers(cfg: Config, s: State, l: Label)
    requires Enabled(cfg, s, l) && IsWorkerStep(l)
    ensures |QueueAfter(cfg, s, l)| + (if l.Pop? then 1 else 0)
            <= |s.sh.queue| + (if exists t :: Requeues(cfg, s, l, t) then 1 else 0)
  {
  }

  lemma WorkDecreases(cfg: Config, s: State, l: Label)
    requires Shape(s) && Enabled(cfg, s, l) && IsWorkerStep(l)
    ensures Work(cfg, Apply(cfg, s, l)) + 1 <= Work(cfg, s)
  {
    WorkerWorkDrops(cfg, s, l);
    TotalWorkUpdate(s.workers, l.w, WorkerAfter(s, l));
    RoomDrops(cfg, s, l);
    QueueSizeUnderWorkers(cfg, s, l);
  }

  ghost predicate OnlyWorkers(run: seq<Label>) {
    forall i :: 0 <= i < |run| ==> IsWorkerStep(run[i])
  }

  /** However the workers interleave and whatever fails, at most `Work` steps can follow one another. */
  lemma {:induction false} WorkersTerminate(cfg: Config, s: State, run: seq<Label>)
    requires Inv(cfg, s) && CanRun(cfg, s, run) && OnlyWorkers(run)
    ensures |run| + Work(cfg, After(cfg, s, run)) <= Work(cfg, s)
    decreases |run|
  {
    if run != [] {
      assert IsWorkerStep(run[0]);
      WorkDecreases(cfg, s, run[0]);
      StepKeepsInv(cfg, s, run[0]);
      OnlyWorkersTail(run);
      WorkersTerminate(cfg, Apply(cfg, s, run[0]), run[1..]);
    }
  }

  lemma OnlyWorkersTail(run: seq<Label>)
    requires run != [] && OnlyWorkers(run)
    ensures OnlyWorkers(run[1..])
  {
  }

  // ----- The workers stop only when everything is done -----

  ghost predicate Drained(s: State) {
    s.sh.queue == multiset{} && forall w :: 0 <= w < |s.workers| ==> s.workers[w] == IDLE
  }

  lemma {:induction false} LeastExists(tasks: seq<Task>, q: multiset<nat>) returns (t: nat)
    requires q != multiset{} && forall u :: u in q ==> u < |tasks|
    ensures t in q && forall u :: u in q ==> Precedes(tasks[t], tasks[u])
    decreases |q|
  {
    var x :| x in q;
    var rest := q[x := 0];
    if rest == multiset{} {
      t := x;
      assert forall u :: u in q && u != x ==> rest[u] > 0;
    } else {
      assert |rest| < |q|;
      var y := LeastExists(tasks, rest);
      t := if Precedes(tasks[x], tasks[y]) then x else y;
      forall u | u in q ensures Precedes(tasks[t], tasks[u]) {
        assert u == x || u in rest;
      }
    }
  }

  /** A worker that is not idle can take a step. */
  lemma BusyCanStep(cfg: Config, s: State, w: nat) returns (l: Label)
    requires Shape(s) && w < |s.workers| && s.workers[w] != IDLE
    ensures Enabled(cfg, s, l) && IsWorkerStep(l)
  {
    var worker := s.workers[w];
    assert WellFormed(worker);
    forall i | 0 <= i < |Part(Any, worker)| ensures Part(Any, worker)[i] < |s.sh.tasks| {
      HeldWitness(Any, s.workers, w, Part(Any, worker)[i]);
    }
    match worker
    case Gathering(batch, popped) =>
      assert popped.Some? ==> Part(Any, worker)[|batch|] == popped.value;
      assert popped.None? ==> Part(Any, worker) == batch;
      l := if popped.Some? then Uncache(w) else Seal(w);
    case Running(groups) =>
      assert Part(Any, worker)[0] == groups[0][0];
      l := if Registered(s, w) then Open(w, true) else Reject(w);
    case InSession(todo, done, rest) =>
      assert todo != [] ==> Part(Any, worker)[0] == todo[0];
      l := if todo != [] then Execute(w, true, Straight) else Commit(w, true);
    case Retrying(todo, rest) =>
      assert Part(Any, worker)[0] == todo[0];
      l := Retry(w);
  }

  /**
   Draining. When no worker step is possible any more, the queue is empty and no worker holds a
   task. With `WorkersTerminate`: without new submissions the queue always drains.
   */
  lemma StuckMeansDrained(cfg: Config, s: State)
    requires Inv(cfg, s) && |s.workers| >= 1 && cfg.batchSize >= 1
    requires forall l :: IsWorkerStep(l) ==> !Enabled(cfg, s, l)
    ensures Drained(s)
  {
    forall w | 0 <= w < |s.workers| ensures s.workers[w] == IDLE {
      if s.workers[w] != IDLE {
        var l := BusyCanStep(cfg, s, w);
      }
    }
    if s.sh.queue != multiset{} {
      var t := LeastExists(s.sh.tasks, s.sh.queue);
      assert s.workers[0] == IDLE;
      assert Enabled(cfg, s, Pop(0, t));
    }
  }

  // ----- A refused keyed submission poisons its merge key -----

  lemma RefusedStays(cfg: Config, s: State, run: seq<Label>, t: nat)
    requires CanRun(cfg, s, run) && t < |s.lives| && s.lives[t].refused && |s.lives| == |s.sh.tasks|
    ensures t < |After(cfg, s, run).lives| && After(cfg, s, run).lives[t].refused
    decreases |run|
  {
    if run != [] {
      AfterAt(cfg, s, run[0], t);
      RecordDelta(cfg, s, run[0], t);
      TasksGrow(cfg, s, run[0]);
      RefusedStays(cfg, Apply(cfg, s, run[0]), run[1..], t);
    }
  }

  /**
   While a refused task is still in the merge cache, a submission with its key is acknowledged as
   merged, and its data is lost for good: nothing that happens later executes or reports it.
   */
  lemma MergeIntoRefusedIsLost(cfg: Config, s0: State, run: seq<Label>, p: nat, later: seq<Label>)
    requires Initial(s0) && CanRun(cfg, s0, run)
    requires var s := After(cfg, s0, run);
             && p in s.producers && s.producers[p].AtMerge? && s.producers[p].key in s.sh.cache
             && s.sh.cache[s.producers[p].key] < |s.lives| && s.lives[s.sh.cache[s.producers[p].key]].refused
             && Enabled(cfg, s, Merge(p)) && CanRun(cfg, Apply(cfg, s, Merge(p)), later)
    ensures var s := After(cfg, s0, run);
            var s', t := Apply(cfg, s, Merge(p)), s.sh.cache[s.producers[p].key];
            && p !in s'.producers && t < |s'.lives|
            && s'.lives[t].merged == s.lives[t].merged + [s.sh.tasks[s.producers[p].task].data]
            && t < |After(cfg, s', later).lives| && IsLost(After(cfg, s', later), t)
  {
    var s := After(cfg, s0, run);
    var s', t := Apply(cfg, s, Merge(p)), s.sh.cache[s.producers[p].key];
    ReachableInv(cfg, s0, run);
    StepKeepsInv(cfg, s, Merge(p));
    AfterAt(cfg, s, Merge(p), t);
    RecordDelta(cfg, s, Merge(p), t);
    RefusedStays(cfg, s', later, t);
    RunKeepsInv(cfg, s', later);
    assert TaskOk(cfg, After(cfg, s', later), t);
  }

  /**
   Such a state is reached whenever a submission with a fresh key finds the queue full: the refusal
   comes after the insertion into the merge cache, and nothing takes it back.
   */
  lemma RefusedTaskStaysCached(cfg: Config, s: State, p: nat, op: Operation, model: string, data: Fields, level: Level,
                               key: string, id: string)
    requires |s.lives| == |s.sh.tasks| && p !in s.producers && IsFull(cfg, s) && key != "" && key !in s.sh.cache
    ensures var run := [Create(p, op, model, data, level, Some(key), id), Merge(p), Push(p)];
            && CanRun(cfg, s, run)
            && var s', t := After(cfg, s, run), |s.lives|;
               && s'.sh.queue == s.sh.queue && key in s'.sh.cache && s'.sh.cache[key] == t && p !in s'.producers
               && t < |s'.lives| && s'.lives[t].refused
  {
    var t := |s.lives|;
    var run := [Create(p, op, model, data, level, Some(key), id), Merge(p), Push(p)];
    var s1 := Apply(cfg, s, run[0]);
    var s2 := Apply(cfg, s1, run[1]);
    var s3 := Apply(cfg, s2, run[2]);
    TasksGrow(cfg, s, run[0]);
    TasksGrow(cfg, s1, run[1]);
    TasksGrow(cfg, s2, run[2]);
    assert s1.producers == s.producers[p := AtMerge(t, key)];
    assert s2.producers == s1.producers[p := AtPush(t)] && s2.sh.cache == s.sh.cache[key := t];
    assert Pushes(s2, run[2], t);
    AfterAt(cfg, s2, run[2], t);
    RunOne(cfg, s2, run[2], []);
    RunOne(cfg, s1, run[1], [run[2]]);
    RunOne(cfg, s, run[0], [run[1], run[2]]);
    assert run == [run[0]] + [run[1], run[2]] && [run[1], run[2]] == [run[1]] + [run[2]] && [run[2]] == [run[2]] + [];
  }
}
