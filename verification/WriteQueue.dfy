/**
 The asynchronous write queue of app/core/db_write_queue.py as a state machine.

 Many producers and several workers take the atomic steps below in any order: a producer creates
 a task, enters the merge section, enters the push section; a worker pops a task, removes it from
 the merge cache, groups its batch by model, opens a session, executes, commits, retries.
 A task object is named by its index in `tasks`, so a task queued twice is one object.
 The `Life` of a task, the `log` of executions, `surplus` and `cleared` are history: no step reads them.
 */
module WriteQueue {
  import opened Prelude

  type Fields = map<string, int>

  datatype Operation = Insert | Update | Remove | Upsert

  datatype Level = Low | Normal | High | Critical

  function LevelValue(level: Level): int {
    match level case Low => 0 case Normal => 1 case High => 2 case Critical => 3
  }

  /** `priority` is negated, so that the least task is the one to run first. */
  datatype Task = Task(priority: int, sequence: nat, op: Operation, model: string, data: Fields,
                       retryCount: int, taskId: string)

  datatype Metrics = Metrics(total: nat, completed: nat, failed: nat, merged: nat)

  datatype Config = Config(maxQueueSize: int, batchSize: int, maxRetries: int)

  /** What the threads share: the task objects, the heap, the merge cache, counters and the model registry. */
  datatype Shared = Shared(tasks: seq<Task>, queue: multiset<nat>, cache: map<string, nat>, metrics: Metrics,
                           registry: set<string>)

  /** Where a producer stands between the atomic sections of a submission. */
  datatype Pending = AtMerge(task: nat, key: string) | AtPush(task: nat)

  datatype Worker =
    | Gathering(batch: seq<nat>, popped: Option<nat>)
    | Running(groups: seq<seq<nat>>)
    | InSession(todo: seq<nat>, done: seq<nat>, rest: seq<seq<nat>>)
    | Retrying(todo: seq<nat>, rest: seq<seq<nat>>)

  datatype Life = Life(
    producer: nat,
    merged: seq<Fields>,         // every submission this task carries, in order
    absorbed: bool,              // its own submission was merged into an older task
    refused: bool,               // its push found the queue full
    enqueued: bool, popped: bool,
    dropped: bool,               // removed by a clear
    executed: nat, firstData: Option<Fields>,
    reported: nat)               // times it was counted as failed for good

  /** What became of the session in which a task was executed. */
  datatype Fate = Unsettled | Committed | RolledBack

  /** What became of what an execution wrote. */
  datatype Effect = InTransaction | Durable | Discarded

  /**
   What an upsert may do to the session that it runs in, besides writing. Where it cannot build its row
   it rolls back and looks for one to update; a model's own method may commit.
   */
  datatype Inside = Straight | FallsBack | CommitsEarly

  /** One execution of a task: whether it succeeded, named a row, and was an upsert that fell back. */
  datatype Attempt = Attempt(task: nat, worker: nat, ok: bool, names: bool, fellBack: bool, effect: Effect, fate: Fate)

  datatype State = State(sh: Shared, producers: map<nat, Pending>, workers: seq<Worker>,
                         lives: seq<Life>, log: seq<Attempt>, surplus: nat, cleared: nat)

  datatype Label =
    | RegisterModel(name: string)
    | Create(p: nat, op: Operation, model: string, data: Fields, level: Level, mergeKey: Option<string>, taskId: string)
    | Merge(p: nat)
    | Push(p: nat)
    | Clear
    | Pop(w: nat, t: nat)
    | Uncache(w: nat)
    | Seal(w: nat)
    | Reject(w: nat)
    | Open(w: nat, ok: bool)
    | Execute(w: nat, ok: bool, inside: Inside)
    | Commit(w: nat, ok: bool)
    | Retry(w: nat)

  // ----- Tasks -----

  /** Merging is a dictionary update: later fields win. */
  function Fold(parts: seq<Fields>): Fields {
    if parts == [] then map[] else Fold(parts[..|parts| - 1]) + parts[|parts| - 1]
  }

  /** Merging more data into a waiting task also resets its retry count. */
  function Merged(task: Task, data: Fields): Task {
    task.(data := task.data + data, retryCount := 0)
  }

  function Min(a: int, b: int): int {
    if a <= b then a else b
  }

  predicate Exhausted(cfg: Config, task: Task) {
    task.retryCount + 1 >= cfg.maxRetries
  }

  /** A failed attempt is counted; a task that will be queued again has its priority raised. */
  function FailedAttempt(cfg: Config, task: Task): Task {
    var counted := task.(retryCount := task.retryCount + 1);
    if Exhausted(cfg, task) then counted else counted.(priority := Min(task.priority, -LevelValue(High)))
  }

  /** Executing an update takes the "id" field out of the task's own data. */
  function Executed(task: Task): Task {
    if task.op == Update then task.(data := task.data - {"id"}) else task
  }

  /** The heap order: negated priority, then sequence number. */
  predicate Precedes(a: Task, b: Task) {
    a.priority < b.priority || (a.priority == b.priority && a.sequence <= b.sequence)
  }

  ghost predicate IsLeast(sh: Shared, t: nat) {
    && t in sh.queue && t < |sh.tasks|
    && forall u :: u in sh.queue ==> u < |sh.tasks| && Precedes(sh.tasks[t], sh.tasks[u])
  }

  /** A popped task leaves the merge cache, together with anything that has its task id. */
  function Uncached(sh: Shared, t: nat): map<string, nat>
    requires t < |sh.tasks|
  {
    map k | k in sh.cache && (sh.cache[k] >= |sh.tasks| || sh.tasks[sh.cache[k]].taskId != sh.tasks[t].taskId) :: sh.cache[k]
  }

  // ----- Grouping a batch by model -----

  function IndexOfModel(tasks: seq<Task>, groups: seq<seq<nat>>, model: string): (r: Option<nat>)
    ensures r.Some? ==> r.value < |groups| && groups[r.value] != [] && groups[r.value][0] < |tasks|
                        && tasks[groups[r.value][0]].model == model
    ensures r.None? ==> forall i :: 0 <= i < |groups| && groups[i] != [] && groups[i][0] < |tasks| ==>
                                      tasks[groups[i][0]].model != model
  {
    if groups == [] then None
    else
      var n := |groups| - 1;
      if groups[n] != [] && groups[n][0] < |tasks| && tasks[groups[n][0]].model == model then Some(n)
      else IndexOfModel(tasks, groups[..n], model)
  }

  function AddToGroup(tasks: seq<Task>, groups: seq<seq<nat>>, t: nat): seq<seq<nat>>
    requires t < |tasks|
  {
    match IndexOfModel(tasks, groups, tasks[t].model)
    case Some(i) => groups[i := groups[i] + [t]]
    case None => groups + [[t]]
  }

  /** One group a model, in the order in which the models first appear. */
  function GroupByModel(tasks: seq<Task>, batch: seq<nat>): seq<seq<nat>>
    requires forall i :: 0 <= i < |batch| ==> batch[i] < |tasks|
  {
    if batch == [] then []
    else AddToGroup(tasks, GroupByModel(tasks, batch[..|batch| - 1]), batch[|batch| - 1])
  }

  function Concat(groups: seq<seq<nat>>): seq<nat> {
    if groups == [] then [] else groups[0] + Concat(groups[1..])
  }

  // ----- When a step can be taken -----

  const IDLE := Gathering([], None)

  function NextGroup(rest: seq<seq<nat>>): Worker {
    if rest == [] then IDLE else Running(rest)
  }

  predicate IsWorker(s: State, w: nat) {
    w < |s.workers|
  }

  /** The worker is about to start on a group of tasks of one model. */
  predicate AtGroup(s: State, w: nat) {
    && IsWorker(s, w) && s.workers[w].Running? && s.workers[w].groups != [] && s.workers[w].groups[0] != []
    && s.workers[w].groups[0][0] < |s.sh.tasks|
  }

  predicate Registered(s: State, w: nat)
    requires AtGroup(s, w)
  {
    s.sh.tasks[s.workers[w].groups[0][0]].model in s.sh.registry
  }

  predicate AtTask(s: State, w: nat) {
    && IsWorker(s, w) && (s.workers[w].InSession? || s.workers[w].Retrying?) && s.workers[w].todo != []
    && s.workers[w].todo[0] < |s.sh.tasks|
  }

  predicate Gathers(s: State, w: nat) {
    IsWorker(s, w) && s.workers[w].Gathering?
  }

  ghost predicate Enabled(cfg: Config, s: State, l: Label) {
    && |s.lives| == |s.sh.tasks|
    && match l
       case RegisterModel(_) => true
       case Create(p, _, _, _, _, _, _) => p !in s.producers
       case Merge(p) => p in s.producers && s.producers[p].AtMerge? && s.producers[p].task < |s.sh.tasks|
       case Push(p) => p in s.producers && s.producers[p].AtPush?
       case Clear => true
       case Pop(w, t) => Gathers(s, w) && s.workers[w].popped.None? && |s.workers[w].batch| < cfg.batchSize && IsLeast(s.sh, t)
       case Uncache(w) => Gathers(s, w) && s.workers[w].popped.Some? && s.workers[w].popped.value < |s.sh.tasks|
       case Seal(w) =>
         && Gathers(s, w) && s.workers[w].popped.None? && s.workers[w].batch != []
         && forall i :: 0 <= i < |s.workers[w].batch| ==> s.workers[w].batch[i] < |s.sh.tasks|
       case Reject(w) => AtGroup(s, w) && !Registered(s, w)
       case Open(w, _) => AtGroup(s, w) && Registered(s, w)
       case Execute(w, _, inside) =>
         AtTask(s, w) && s.workers[w].InSession? && (inside.Straight? || s.sh.tasks[Current(s, w)].op == Upsert)
       case Commit(w, _) => IsWorker(s, w) && s.workers[w].InSession? && s.workers[w].todo == []
       case Retry(w) => AtTask(s, w) && s.workers[w].Retrying?
  }

  // ----- What a step changes -----

  predicate IsFull(cfg: Config, s: State) {
    |s.sh.queue| >= cfg.maxQueueSize
  }

  /** The task that an `Execute` or `Retry` step works on. */
  function Current(s: State, w: nat): nat
    requires AtTask(s, w)
  {
    s.workers[w].todo[0]
  }

  /** The step is a failed attempt at task `t`. */
  predicate FailsAttempt(s: State, l: Label, t: nat) {
    match l
    case Execute(w, ok, _) => !ok && AtTask(s, w) && Current(s, w) == t
    case Retry(w) => AtTask(s, w) && Current(s, w) == t
    case _ => false
  }

  predicate Executes(s: State, l: Label, t: nat) {
    l.Execute? && AtTask(s, l.w) && Current(s, l.w) == t
  }

  /** The step merges a pending submission into task `t`. */
  predicate MergesInto(s: State, l: Label, t: nat) {
    l.Merge? && l.p in s.producers && s.producers[l.p].AtMerge?
    && s.producers[l.p].key in s.sh.cache && s.sh.cache[s.producers[l.p].key] == t
  }

  predicate Pushes(s: State, l: Label, t: nat) {
    l.Push? && l.p in s.producers && s.producers[l.p] == AtPush(t)
  }

  predicate Rejects(s: State, l: Label, t: nat) {
    l.Reject? && AtGroup(s, l.w) && t in s.workers[l.w].groups[0]
  }

  predicate Requeues(cfg: Config, s: State, l: Label, t: nat) {
    t < |s.sh.tasks| && FailsAttempt(s, l, t) && !Exhausted(cfg, s.sh.tasks[t])
  }

  function TaskAfter(cfg: Config, s: State, l: Label, t: nat): Task
    requires t < |s.sh.tasks|
  {
    var task := s.sh.tasks[t];
    if MergesInto(s, l, t) && s.producers[l.p].task < |s.sh.tasks| then Merged(task, s.sh.tasks[s.producers[l.p].task].data)
    else
      var task' := if Executes(s, l, t) then Executed(task) else task;
      if FailsAttempt(s, l, t) then FailedAttempt(cfg, task') else task'
  }

  function NewTask(s: State, l: Label): Task
    requires l.Create?
  {
    Task(-LevelValue(l.level), |s.sh.tasks| + 1, l.op, l.model, l.data, 0, l.taskId)
  }

  function TasksAfter(cfg: Config, s: State, l: Label): seq<Task> {
    seq(|s.sh.tasks|, i requires 0 <= i < |s.sh.tasks| => TaskAfter(cfg, s, l, i))
    + if l.Create? then [NewTask(s, l)] else []
  }

  function QueueAfter(cfg: Config, s: State, l: Label): multiset<nat> {
    match l
    case Push(p) =>
      if p in s.producers && s.producers[p].AtPush? && !IsFull(cfg, s) then s.sh.queue + multiset{s.producers[p].task}
      else s.sh.queue
    case Pop(_, t) => s.sh.queue - multiset{t}
    case Clear => multiset{}
    case Execute(w, _, _) => if AtTask(s, w) && Requeues(cfg, s, l, Current(s, w)) then s.sh.queue + multiset{Current(s, w)} else s.sh.queue
    case Retry(w) => if AtTask(s, w) && Requeues(cfg, s, l, Current(s, w)) then s.sh.queue + multiset{Current(s, w)} else s.sh.queue
    case _ => s.sh.queue
  }

  function CacheAfter(s: State, l: Label): map<string, nat> {
    match l
    case Merge(p) =>
      if p in s.producers && s.producers[p].AtMerge? && s.producers[p].key !in s.sh.cache
      then s.sh.cache[s.producers[p].key := s.producers[p].task] else s.sh.cache
    case Uncache(w) =>
      if Gathers(s, w) && s.workers[w].popped.Some? && s.workers[w].popped.value < |s.sh.tasks|
      then Uncached(s.sh, s.workers[w].popped.value) else s.sh.cache
    case Clear => map[]
    case _ => s.sh.cache
  }

  function MetricsAfter(cfg: Config, s: State, l: Label): Metrics {
    var m := s.sh.metrics;
    match l
    case Merge(p) =>
      if p in s.producers && s.producers[p].AtMerge? && s.producers[p].key in s.sh.cache then m.(merged := m.merged + 1) else m
    case Push(p) => if IsFull(cfg, s) then m else m.(total := m.total + 1)
    case Reject(w) => if AtGroup(s, w) then m.(failed := m.failed + |s.workers[w].groups[0]|) else m
    case Execute(w, ok, _) =>
      if ok then m.(completed := m.completed + 1)
      else if AtTask(s, w) && Exhausted(cfg, s.sh.tasks[Current(s, w)]) then m.(failed := m.failed + 1) else m
    case Retry(w) => if AtTask(s, w) && Exhausted(cfg, s.sh.tasks[Current(s, w)]) then m.(failed := m.failed + 1) else m
    case _ => m
  }

  function ProducersAfter(s: State, l: Label): map<nat, Pending> {
    match l
    case Create(p, _, _, _, _, key, _) =>
      s.producers[p := if key.Some? && key.value != "" then AtMerge(|s.sh.tasks|, key.value) else AtPush(|s.sh.tasks|)]
    case Merge(p) =>
      if p in s.producers && s.producers[p].AtMerge? && s.producers[p].key !in s.sh.cache
      then s.producers[p := AtPush(s.producers[p].task)] else s.producers - {p}
    case Push(p) => s.producers - {p}
    case _ => s.producers
  }

  function WorkerAfter(s: State, l: Label): Worker
    requires !(l.RegisterModel? || l.Create? || l.Merge? || l.Push? || l.Clear?)
    requires IsWorker(s, l.w)
  {
    var worker := s.workers[l.w];
    match l
    case Pop(_, t) => if worker.Gathering? then worker.(popped := Some(t)) else worker
    case Uncache(_) => if worker.Gathering? && worker.popped.Some? then Gathering(worker.batch + [worker.popped.value], None) else worker
    case Seal(_) =>
      if worker.Gathering? && (forall i :: 0 <= i < |worker.batch| ==> worker.batch[i] < |s.sh.tasks|)
      then Running(GroupByModel(s.sh.tasks, worker.batch)) else worker
    case Reject(_) => if AtGroup(s, l.w) then NextGroup(worker.groups[1..]) else worker
    case Open(_, ok) =>
      if !AtGroup(s, l.w) then worker
      else if ok then InSession(worker.groups[0], [], worker.groups[1..]) else Retrying(worker.groups[0], worker.groups[1..])
    case Execute(_, _, _) =>
      if AtTask(s, l.w) && worker.InSession? then InSession(worker.todo[1..], worker.done + [worker.todo[0]], worker.rest) else worker
    case Commit(_, ok) =>
      if !worker.InSession? then worker
      else if ok then NextGroup(worker.rest) else Retrying(worker.done, worker.rest)
    case Retry(_) =>
      if !(AtTask(s, l.w) && worker.Retrying?) then worker
      else if |worker.todo| == 1 then NextGroup(worker.rest) else Retrying(worker.todo[1..], worker.rest)
  }

  function WorkersAfter(s: State, l: Label): seq<Worker> {
    if l.RegisterModel? || l.Create? || l.Merge? || l.Push? || l.Clear? || !IsWorker(s, l.w) then s.workers
    else s.workers[l.w := WorkerAfter(s, l)]
  }

  function LifeAfter(cfg: Config, s: State, l: Label, t: nat): Life
    requires t < |s.lives| && |s.lives| == |s.sh.tasks|
  {
    var life := s.lives[t];
    match l
    case Merge(p) =>
      if MergesInto(s, l, t) && s.producers[p].task < |s.sh.tasks| then
        life.(merged := life.merged + [s.sh.tasks[s.producers[p].task].data])
      else if p in s.producers && s.producers[p].AtMerge? && s.producers[p].task == t && s.producers[p].key in s.sh.cache then
        life.(absorbed := true)
      else life
    case Push(_) => if Pushes(s, l, t) then (if IsFull(cfg, s) then life.(refused := true) else life.(enqueued := true)) else life
    case Pop(_, u) => if t == u then life.(popped := true) else life
    case Clear => if t in s.sh.queue then life.(dropped := true) else life
    case Reject(_) => if Rejects(s, l, t) then life.(reported := life.reported + 1) else life
    case Execute(_, ok, _) =>
      if !Executes(s, l, t) then life
      else life.(executed := life.executed + 1,
                 firstData := if life.firstData.None? then Some(s.sh.tasks[t].data) else life.firstData,
                 reported := life.reported + if !ok && Exhausted(cfg, s.sh.tasks[t]) then 1 else 0)
    case Retry(_) =>
      if FailsAttempt(s, l, t) && Exhausted(cfg, s.sh.tasks[t]) then life.(reported := life.reported + 1) else life
    case _ => life
  }

  function LivesAfter(cfg: Config, s: State, l: Label): seq<Life>
    requires |s.lives| == |s.sh.tasks|
  {
    seq(|s.lives|, i requires 0 <= i < |s.lives| => LifeAfter(cfg, s, l, i))
    + if l.Create? then [Life(l.p, [l.data], false, false, false, false, false, 0, None, 0)] else []
  }

  /** Inserts and upserts write a row of their own; updates and deletions only look one up when the data names it. */
  predicate NamesARow(op: Operation, data: Fields) {
    op == Insert || op == Upsert || ("id" in data && data["id"] != 0)
  }

  /** An upsert that fell back looks its row up by one of two fields. */
  predicate NamesToFallBackOn(data: Fields) {
    ("id" in data && data["id"] != 0) || ("file_id" in data && data["file_id"] != 0)
  }

  predicate NamesNow(op: Operation, data: Fields, inside: Inside) {
    if inside.FallsBack? then NamesToFallBackOn(data) else NamesARow(op, data)
  }

  /** The transaction of worker `w` ends, and with it the fate of what it wrote is decided. */
  function Decide(w: nat, kept: bool): Attempt -> Attempt {
    (a: Attempt) =>
      if a.worker == w && a.fate.Unsettled? && a.effect.InTransaction?
      then a.(effect := if kept then Durable else Discarded) else a
  }

  /** The session of worker `w` ends. */
  function Settle(w: nat, ok: bool): Attempt -> Attempt {
    (a: Attempt) =>
      if a.worker == w && a.fate.Unsettled?
      then a.(fate := if ok then Committed else RolledBack,
              effect := if !a.effect.InTransaction? then a.effect else if ok then Durable else Discarded)
      else a
  }

  function Each(f: Attempt -> Attempt, log: seq<Attempt>): (r: seq<Attempt>)
    ensures |r| == |log|
  {
    seq(|log|, i requires 0 <= i < |log| => f(log[i]))
  }

  /** The log when the upsert, if it is one, has ended its session's transaction. */
  function Decided(log: seq<Attempt>, w: nat, inside: Inside): seq<Attempt> {
    if inside.Straight? then log else Each(Decide(w, inside.CommitsEarly?), log)
  }

  /** The entry of an execution; one that fails without committing writes nothing. */
  function EntryOf(s: State, w: nat, ok: bool, inside: Inside): Attempt
    requires AtTask(s, w)
  {
    var t := Current(s, w);
    Attempt(t, w, ok, NamesNow(s.sh.tasks[t].op, s.sh.tasks[t].data, inside), inside.FallsBack?,
            if inside.CommitsEarly? then Durable else if ok then InTransaction else Discarded, Unsettled)
  }

  function LogAfter(s: State, l: Label): seq<Attempt> {
    match l
    case Execute(w, ok, inside) =>
      if !AtTask(s, w) then s.log else Decided(s.log, w, inside) + [EntryOf(s, w, ok, inside)]
    case Commit(w, ok) => Each(Settle(w, ok), s.log)
    case _ => s.log
  }

  /** The effect of one step. */
  function Apply(cfg: Config, s: State, l: Label): State
    requires |s.lives| == |s.sh.tasks|
  {
    State(
      Shared(TasksAfter(cfg, s, l), QueueAfter(cfg, s, l), CacheAfter(s, l), MetricsAfter(cfg, s, l),
             if l.RegisterModel? then s.sh.registry + {l.name} else s.sh.registry),
      ProducersAfter(s, l), WorkersAfter(s, l), LivesAfter(cfg, s, l), LogAfter(s, l),
      s.surplus + (if l.Commit? && !l.ok && IsWorker(s, l.w) && s.workers[l.w].InSession? then |s.workers[l.w].done| else 0),
      s.cleared + if l.Clear? then |s.sh.queue| else 0)
  }

  // ----- What workers hold -----

  /** All copies; those that can still be executed; those already past the merge cache. */
  datatype Kind = Any | Runnable | Past

  function Part(kind: Kind, w: Worker): seq<nat> {
    match w
    case Gathering(batch, popped) => batch + (if popped.Some? && kind != Past then [popped.value] else [])
    case Running(groups) => Concat(groups)
    case InSession(todo, done, rest) => todo + Concat(rest)
    case Retrying(todo, rest) => (if kind == Runnable then [] else todo) + Concat(rest)
  }

  function Count(ts: seq<nat>, t: nat): nat {
    multiset(ts)[t]
  }

  function Sum(ns: seq<nat>): nat {
    if ns == [] then 0 else ns[0] + Sum(ns[1..])
  }

  /** How many copies of task `t` the workers hold. */
  function Held(kind: Kind, ws: seq<Worker>, t: nat): nat {
    Sum(seq(|ws|, i requires 0 <= i < |ws| => Count(Part(kind, ws[i]), t)))
  }

  /** How many copies of tasks the workers hold in all. */
  function HeldSize(ws: seq<Worker>): nat {
    Sum(seq(|ws|, i requires 0 <= i < |ws| => |Part(Any, ws[i])|))
  }

  lemma {:induction false} SumUpdate(ns: seq<nat>, i: nat, x: nat)
    requires i < |ns|
    ensures Sum(ns[i := x]) + ns[i] == Sum(ns) + x
  {
    if i > 0 {
      SumUpdate(ns[1..], i - 1, x);
      assert ns[i := x][1..] == ns[1..][i - 1 := x];
    } else {
      assert ns[0 := x][1..] == ns[1..];
    }
  }

  lemma {:induction false} SumZero(ns: seq<nat>)
    requires forall i :: 0 <= i < |ns| ==> ns[i] == 0
    ensures Sum(ns) == 0
  {
    if ns != [] {
      SumZero(ns[1..]);
    }
  }

  lemma {:induction false} SumPositive(ns: seq<nat>, i: nat)
    requires i < |ns|
    ensures ns[i] <= Sum(ns)
  {
    if i > 0 {
      SumPositive(ns[1..], i - 1);
    }
  }

  /** Replacing one worker changes the totals by what that worker gives up and takes on. */
  lemma HeldUpdate(kind: Kind, ws: seq<Worker>, i: nat, x: Worker, t: nat)
    requires i < |ws|
    ensures Held(kind, ws[i := x], t) + Count(Part(kind, ws[i]), t) == Held(kind, ws, t) + Count(Part(kind, x), t)
  {
    var ns := seq(|ws|, i requires 0 <= i < |ws| => Count(Part(kind, ws[i]), t));
    var xs := ws[i := x];
    SumUpdate(ns, i, Count(Part(kind, x), t));
    assert ns[i := Count(Part(kind, x), t)] == seq(|xs|, i requires 0 <= i < |xs| => Count(Part(kind, xs[i]), t));
  }

  lemma HeldSizeUpdate(ws: seq<Worker>, i: nat, x: Worker)
    requires i < |ws|
    ensures HeldSize(ws[i := x]) + |Part(Any, ws[i])| == HeldSize(ws) + |Part(Any, x)|
  {
    var ns := seq(|ws|, i requires 0 <= i < |ws| => |Part(Any, ws[i])|);
    var xs := ws[i := x];
    SumUpdate(ns, i, |Part(Any, x)|);
    assert ns[i := |Part(Any, x)|] == seq(|xs|, i requires 0 <= i < |xs| => |Part(Any, xs[i])|);
  }
}
