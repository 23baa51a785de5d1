/** How each step moves tasks between the queue and the workers, and the basic invariant of every run. */
module WriteQueueMoves {
  import opened Prelude
  import opened WriteQueue

  // ----- Grouping -----

  lemma {:induction false} ConcatUpdate(groups: seq<seq<nat>>, i: nat, t: nat)
    requires i < |groups|
    ensures multiset(Concat(groups[i := groups[i] + [t]])) == multiset(Concat(groups)) + multiset{t}
  {
    if i > 0 {
      ConcatUpdate(groups[1..], i - 1, t);
      assert groups[i := groups[i] + [t]][1..] == groups[1..][i - 1 := groups[1..][i - 1] + [t]];
    } else {
      assert groups[0 := groups[0] + [t]][1..] == groups[1..];
    }
  }

  lemma {:induction false} ConcatAppend(groups: seq<seq<nat>>, g: seq<nat>)
    ensures Concat(groups + [g]) == Concat(groups) + g
  {
    if groups == [] {
      assert (groups + [g])[1..] == [];
    } else {
      ConcatAppend(groups[1..], g);
      assert (groups + [g])[1..] == groups[1..] + [g];
    }
  }

  /** The group is what the batch holds of one model, in batch order. */
  predicate IsGroup(tasks: seq<Task>, g: seq<nat>, batch: seq<nat>) {
    g != [] && g[0] < |tasks| && g == Filter(HasModel(tasks, tasks[g[0]].model), batch)
  }

  ghost predicate OneGroupAModel(tasks: seq<Task>, groups: seq<seq<nat>>) {
    forall i, j :: 0 <= i < j < |groups| && groups[i] != [] && groups[j] != []
                   && groups[i][0] < |tasks| && groups[j][0] < |tasks| ==>
                     tasks[groups[i][0]].model != tasks[groups[j][0]].model
  }

  ghost predicate Grouped(tasks: seq<Task>, groups: seq<seq<nat>>, batch: seq<nat>)
    requires forall i :: 0 <= i < |batch| ==> batch[i] < |tasks|
  {
    && (forall i :: 0 <= i < |groups| ==> IsGroup(tasks, groups[i], batch))
    && OneGroupAModel(tasks, groups)
    && (forall k :: 0 <= k < |batch| ==> IndexOfModel(tasks, groups, tasks[batch[k]].model).Some?)
  }

  function HasModel(tasks: seq<Task>, model: string): nat -> bool {
    (t: nat) => t < |tasks| && tasks[t].model == model
  }

  lemma IndexOfModelAt(tasks: seq<Task>, groups: seq<seq<nat>>, model: string, i: nat)
    requires i < |groups| && groups[i] != [] && groups[i][0] < |tasks| && tasks[groups[i][0]].model == model
    ensures IndexOfModel(tasks, groups, model).Some?
  {
  }

  lemma NewGroup(tasks: seq<Task>, groups: seq<seq<nat>>, batch: seq<nat>, t: nat)
    requires t < |tasks| && IndexOfModel(tasks, groups, tasks[t].model).None?
    requires forall k :: 0 <= k < |batch| ==>
               batch[k] < |tasks| && IndexOfModel(tasks, groups, tasks[batch[k]].model).Some?
    ensures Filter(HasModel(tasks, tasks[t].model), batch + [t]) == [t]
  {
    var mine := HasModel(tasks, tasks[t].model);
    FilterConcat(mine, batch, [t]);
    forall x | x in batch ensures !mine(x) {
      var k :| 0 <= k < |batch| && batch[k] == x;
      assert IndexOfModel(tasks, groups, tasks[batch[k]].model).Some?;
    }
    FilterNone(mine, batch);
  }

  lemma GroupAfterAdd(tasks: seq<Task>, g: seq<nat>, batch: seq<nat>, t: nat)
    requires t < |tasks| && IsGroup(tasks, g, batch)
    ensures tasks[t].model == tasks[g[0]].model ==> IsGroup(tasks, g + [t], batch + [t])
    ensures tasks[t].model != tasks[g[0]].model ==> IsGroup(tasks, g, batch + [t])
  {
    FilterConcat(HasModel(tasks, tasks[g[0]].model), batch, [t]);
    FilterOne(HasModel(tasks, tasks[g[0]].model), t);
  }

  lemma IndexesAfterAdd(tasks: seq<Task>, groups: seq<seq<nat>>, t: nat, model: string)
    requires t < |tasks|
    requires IndexOfModel(tasks, groups, model).Some? || model == tasks[t].model
    ensures IndexOfModel(tasks, AddToGroup(tasks, groups, t), model).Some?
  {
    var at := IndexOfModel(tasks, groups, model);
    IndexOfModelAt(tasks, AddToGroup(tasks, groups, t), model, if at.Some? then at.value else |groups|);
  }

  lemma DistinctAfterAdd(tasks: seq<Task>, groups: seq<seq<nat>>, t: nat)
    requires t < |tasks| && OneGroupAModel(tasks, groups)
    ensures OneGroupAModel(tasks, AddToGroup(tasks, groups, t))
  {
  }

  lemma GroupsAfterAdd(tasks: seq<Task>, groups: seq<seq<nat>>, batch: seq<nat>, t: nat, i: nat)
    requires forall i :: 0 <= i < |batch| ==> batch[i] < |tasks|
    requires t < |tasks| && Grouped(tasks, groups, batch) && i < |AddToGroup(tasks, groups, t)|
    ensures IsGroup(tasks, AddToGroup(tasks, groups, t)[i], batch + [t])
  {
    if i < |groups| {
      assert IsGroup(tasks, groups[i], batch);
      GroupAfterAdd(tasks, groups[i], batch, t);
      OnlyItsGroupGrows(tasks, groups, t, i);
    } else {
      NewGroup(tasks, groups, batch, t);
    }
  }

  lemma OnlyItsGroupGrows(tasks: seq<Task>, groups: seq<seq<nat>>, t: nat, i: nat)
    requires t < |tasks| && i < |groups| && OneGroupAModel(tasks, groups)
    requires groups[i] != [] && groups[i][0] < |tasks|
    ensures tasks[t].model == tasks[groups[i][0]].model ==> AddToGroup(tasks, groups, t)[i] == groups[i] + [t]
    ensures tasks[t].model != tasks[groups[i][0]].model ==> AddToGroup(tasks, groups, t)[i] == groups[i]
  {
  }

  lemma AddKeepsGrouped(tasks: seq<Task>, groups: seq<seq<nat>>, batch: seq<nat>, t: nat)
    requires forall i :: 0 <= i < |batch| ==> batch[i] < |tasks|
    requires t < |tasks| && Grouped(tasks, groups, batch)
    ensures Grouped(tasks, AddToGroup(tasks, groups, t), batch + [t])
  {
    var groups' := AddToGroup(tasks, groups, t);
    DistinctAfterAdd(tasks, groups, t);
    forall i | 0 <= i < |groups'|
      ensures IsGroup(tasks, groups'[i], batch + [t])
    {
      GroupsAfterAdd(tasks, groups, batch, t, i);
    }
    forall k | 0 <= k < |batch + [t]|
      ensures IndexOfModel(tasks, groups', tasks[(batch + [t])[k]].model).Some?
    {
      IndexesAfterAdd(tasks, groups, t, tasks[(batch + [t])[k]].model);
    }
  }

  /**
   Grouping a batch loses and invents nothing: the groups together are a permutation of the batch,
   each one keeps the batch order of its model, and there is exactly one group a model.
   */
  lemma {:induction false} GroupingIsPermutation(tasks: seq<Task>, batch: seq<nat>)
    requires forall i :: 0 <= i < |batch| ==> batch[i] < |tasks|
    ensures multiset(Concat(GroupByModel(tasks, batch))) == multiset(batch)
    ensures Grouped(tasks, GroupByModel(tasks, batch), batch)
  {
    if batch != [] {
      var n := |batch| - 1;
      var groups, t := GroupByModel(tasks, batch[..n]), batch[n];
      GroupingIsPermutation(tasks, batch[..n]);
      AddKeepsGrouped(tasks, groups, batch[..n], t);
      assert batch == batch[..n] + [t];
      match IndexOfModel(tasks, groups, tasks[t].model)
      case Some(i) => ConcatUpdate(groups, i, t);
      case None => ConcatAppend(groups, [t]);
    }
  }

  // ----- Moves -----

  /** The copies that leave the workers' hands in one step. */
  function Leaving(s: State, l: Label, kind: Kind): seq<nat> {
    match l
    case Reject(w) => if AtGroup(s, w) then s.workers[w].groups[0] else []
    case Open(w, ok) => if AtGroup(s, w) && !ok && kind == Runnable then s.workers[w].groups[0] else []
    case Execute(w, _, _) => if AtTask(s, w) then [Current(s, w)] else []
    case Retry(w) => if AtTask(s, w) && kind != Runnable then [Current(s, w)] else []
    case _ => []
  }

  /** The copies that come into the workers' hands in one step. */
  function Entering(s: State, l: Label, kind: Kind): seq<nat> {
    match l
    case Pop(_, t) => if kind != Past then [t] else []
    case Uncache(w) => if Gathers(s, w) && s.workers[w].popped.Some? && kind == Past then [s.workers[w].popped.value] else []
    case Commit(w, ok) => if IsWorker(s, w) && s.workers[w].InSession? && !ok && kind != Runnable then s.workers[w].done else []
    case _ => []
  }

  predicate IsWorkerStep(l: Label) {
    !(l.RegisterModel? || l.Create? || l.Merge? || l.Push? || l.Clear?)
  }

  /** `after` is `before` without `out` and with `into`, up to order. */
  ghost predicate Balanced(before: seq<nat>, after: seq<nat>, out: seq<nat>, into: seq<nat>) {
    && |after| + |out| == |before| + |into|
    && forall t :: Count(after, t) + Count(out, t) == Count(before, t) + Count(into, t)
  }

  lemma SealMoves(cfg: Config, s: State, l: Label, kind: Kind)
    requires Enabled(cfg, s, l) && l.Seal?
    ensures Balanced(Part(kind, s.workers[l.w]), Part(kind, WorkerAfter(s, l)), [], [])
  {
    var batch := s.workers[l.w].batch;
    GroupingIsPermutation(s.sh.tasks, batch);
    assert Part(kind, s.workers[l.w]) == batch;
    assert |multiset(batch)| == |batch|;
    assert |multiset(Concat(GroupByModel(s.sh.tasks, batch)))| == |Concat(GroupByModel(s.sh.tasks, batch))|;
  }

  lemma GatherMoves(cfg: Config, s: State, l: Label, kind: Kind)
    requires Enabled(cfg, s, l) && (l.Pop? || l.Uncache?)
    ensures Part(kind, WorkerAfter(s, l)) == Part(kind, s.workers[l.w]) + Entering(s, l, kind)
  {
  }

  lemma TailMoves(todo: seq<nat>, rest: seq<nat>)
    requires todo != []
    ensures todo + rest == [todo[0]] + (todo[1..] + rest)
  {
  }

  lemma ExecuteMoves(s: State, w: nat, ok: bool, inside: Inside, kind: Kind)
    requires AtTask(s, w) && s.workers[w].InSession?
    ensures Part(kind, s.workers[w]) == [Current(s, w)] + Part(kind, WorkerAfter(s, Execute(w, ok, inside)))
  {
    TailMoves(s.workers[w].todo, Concat(s.workers[w].rest));
  }

  lemma RetryMoves(s: State, w: nat, kind: Kind)
    requires AtTask(s, w) && s.workers[w].Retrying?
    ensures Part(kind, s.workers[w]) == Leaving(s, Retry(w), kind) + Part(kind, WorkerAfter(s, Retry(w)))
  {
    var worker := s.workers[w];
    var rest := Concat(worker.rest);
    TailMoves(worker.todo, rest);
    if |worker.todo| == 1 {
      assert worker.todo[1..] == [] && [] + rest == rest;
      assert Part(kind, NextGroup(worker.rest)) == rest;
    }
  }

  lemma NextGroupPart(kind: Kind, rest: seq<seq<nat>>)
    ensures Part(kind, NextGroup(rest)) == Concat(rest)
  {
  }

  lemma RejectMoves(s: State, w: nat, kind: Kind)
    requires AtGroup(s, w)
    ensures Part(kind, s.workers[w]) == s.workers[w].groups[0] + Part(kind, WorkerAfter(s, Reject(w)))
  {
    NextGroupPart(kind, s.workers[w].groups[1..]);
  }

  lemma OpenMoves(s: State, w: nat, ok: bool, kind: Kind)
    requires AtGroup(s, w)
    ensures Part(kind, s.workers[w]) == Leaving(s, Open(w, ok), kind) + Part(kind, WorkerAfter(s, Open(w, ok)))
  {
    var groups := s.workers[w].groups;
    assert Concat(groups) == groups[0] + Concat(groups[1..]);
    assert [] + Concat(groups) == Concat(groups) && [] + Concat(groups[1..]) == Concat(groups[1..]);
  }

  lemma CommitMoves(s: State, w: nat, ok: bool, kind: Kind)
    requires IsWorker(s, w) && s.workers[w].InSession? && s.workers[w].todo == []
    ensures Part(kind, WorkerAfter(s, Commit(w, ok))) == Entering(s, Commit(w, ok), kind) + Part(kind, s.workers[w])
  {
    var rest := Concat(s.workers[w].rest);
    NextGroupPart(kind, s.workers[w].rest);
    assert [] + rest == rest;
  }

  lemma WorkerMoves(cfg: Config, s: State, l: Label, kind: Kind)
    requires Enabled(cfg, s, l) && IsWorkerStep(l)
    ensures Balanced(Part(kind, s.workers[l.w]), Part(kind, WorkerAfter(s, l)), Leaving(s, l, kind), Entering(s, l, kind))
  {
    var before, after := Part(kind, s.workers[l.w]), Part(kind, WorkerAfter(s, l));
    var out, into := Leaving(s, l, kind), Entering(s, l, kind);
    match l
    case Seal(_) => SealMoves(cfg, s, l, kind);
    case Pop(_, _) => GatherMoves(cfg, s, l, kind); MovedIn(before, after, into);
    case Uncache(_) => GatherMoves(cfg, s, l, kind); MovedIn(before, after, into);
    case Execute(w, ok, inside) => ExecuteMoves(s, w, ok, inside, kind); MovedOut(before, after, out);
    case Retry(w) => RetryMoves(s, w, kind); MovedOut(before, after, out);
    case Reject(w) => RejectMoves(s, w, kind); MovedOut(before, after, out);
    case Open(w, ok) => OpenMoves(s, w, ok, kind); MovedOut(before, after, out);
    case Commit(w, ok) => CommitMoves(s, w, ok, kind); MovedIn(before, after, into);
  }

  lemma MovedOut(before: seq<nat>, after: seq<nat>, out: seq<nat>)
    requires before == out + after
    ensures Balanced(before, after, out, [])
  {
  }

  lemma MovedIn(before: seq<nat>, after: seq<nat>, into: seq<nat>)
    requires after == before + into || after == into + before
    ensures Balanced(before, after, [], into)
  {
  }

  /** Every step moves exactly `Leaving` out of and `Entering` into what the workers hold. */
  lemma HeldMoves(cfg: Config, s: State, l: Label, kind: Kind, t: nat)
    requires Enabled(cfg, s, l)
    ensures Held(kind, WorkersAfter(s, l), t) + Count(Leaving(s, l, kind), t)
            == Held(kind, s.workers, t) + Count(Entering(s, l, kind), t)
  {
    if IsWorkerStep(l) {
      HeldUpdate(kind, s.workers, l.w, WorkerAfter(s, l), t);
      WorkerMoves(cfg, s, l, kind);
    }
  }

  lemma HeldSizeMoves(cfg: Config, s: State, l: Label)
    requires Enabled(cfg, s, l)
    ensures HeldSize(WorkersAfter(s, l)) + |Leaving(s, l, Any)| == HeldSize(s.workers) + |Entering(s, l, Any)|
  {
    if IsWorkerStep(l) {
      HeldSizeUpdate(s.workers, l.w, WorkerAfter(s, l));
      WorkerMoves(cfg, s, l, Any);
    }
  }

  // ----- The basic invariant -----

  predicate WellFormed(w: Worker) {
    match w
    case Gathering(_, _) => true
    case Running(groups) => groups != [] && forall i :: 0 <= i < |groups| ==> groups[i] != []
    case InSession(todo, done, rest) => todo + done != [] && forall i :: 0 <= i < |rest| ==> rest[i] != []
    case Retrying(todo, rest) => todo != [] && forall i :: 0 <= i < |rest| ==> rest[i] != []
  }

  ghost predicate WorkersOk(s: State) {
    forall w :: 0 <= w < |s.workers| ==>
      && WellFormed(s.workers[w])
      && (s.workers[w].InSession? ==> forall i :: 0 <= i < |s.workers[w].done| ==> s.workers[w].done[i] < |s.sh.tasks|)
  }

  /** A producer in the middle of a submission owns a task that nobody else has seen yet. */
  ghost predicate ProducersOk(s: State) {
    && |s.lives| == |s.sh.tasks|
    && forall p :: p in s.producers ==>
         var t := s.producers[p].task;
         && t < |s.sh.tasks|
         && s.lives[t].producer == p && !s.lives[t].enqueued && !s.lives[t].refused && !s.lives[t].absorbed
  }

  ghost predicate QueueOk(s: State) {
    && (forall t :: t in s.sh.queue ==> t < |s.sh.tasks|)
    && (forall t: nat :: Held(Any, s.workers, t) > 0 ==> t < |s.sh.tasks|)
    && (forall k :: k in s.sh.cache ==> s.sh.cache[k] < |s.sh.tasks|)
  }

  ghost predicate SequencesOk(s: State) {
    forall i :: 0 <= i < |s.sh.tasks| ==> s.sh.tasks[i].sequence == i + 1
  }

  ghost predicate Shape(s: State) {
    ProducersOk(s) && QueueOk(s) && WorkersOk(s) && SequencesOk(s)
  }

  lemma TasksGrow(cfg: Config, s: State, l: Label)
    requires |s.lives| == |s.sh.tasks|
    ensures |TasksAfter(cfg, s, l)| == |LivesAfter(cfg, s, l)| == |s.sh.tasks| + if l.Create? then 1 else 0
  {
  }

  lemma StepKeepsSequences(cfg: Config, s: State, l: Label)
    requires Enabled(cfg, s, l) && SequencesOk(s)
    ensures SequencesOk(Apply(cfg, s, l))
  {
    var s' := Apply(cfg, s, l);
    forall i | 0 <= i < |s'.sh.tasks| ensures s'.sh.tasks[i].sequence == i + 1 {
      if i < |s.sh.tasks| {
        assert s'.sh.tasks[i] == TaskAfter(cfg, s, l, i);
        SequenceStays(cfg, s, l, i);
      }
    }
  }

  lemma SequenceStays(cfg: Config, s: State, l: Label, t: nat)
    requires t < |s.sh.tasks|
    ensures TaskAfter(cfg, s, l, t).sequence == s.sh.tasks[t].sequence
  {
  }

  lemma StepKeepsProducers(cfg: Config, s: State, l: Label)
    requires Enabled(cfg, s, l) && ProducersOk(s)
    ensures ProducersOk(Apply(cfg, s, l))
  {
    TasksGrow(cfg, s, l);
    var s' := Apply(cfg, s, l);
    forall p | p in s'.producers
      ensures var t := s'.producers[p].task;
              && t < |s'.sh.tasks|
              && s'.lives[t].producer == p && !s'.lives[t].enqueued && !s'.lives[t].refused && !s'.lives[t].absorbed
    {
      if p in s.producers && !(l.Create? && l.p == p) {
        OwnedTaskStays(cfg, s, l, p);
        assert s'.lives[s.producers[p].task] == LifeAfter(cfg, s, l, s.producers[p].task);
      }
    }
  }

  /** A producer that goes on owning its task is the only one that could push it or give it up. */
  lemma OwnedTaskStays(cfg: Config, s: State, l: Label, p: nat)
    requires Enabled(cfg, s, l) && ProducersOk(s)
    requires p in s.producers && !(l.Create? && l.p == p) && p in ProducersAfter(s, l)
    ensures var t := s.producers[p].task;
            && ProducersAfter(s, l)[p].task == t
            && LifeAfter(cfg, s, l, t).producer == p && !LifeAfter(cfg, s, l, t).enqueued
            && !LifeAfter(cfg, s, l, t).refused && !LifeAfter(cfg, s, l, t).absorbed
  {
  }

  lemma StepKeepsWorkers(cfg: Config, s: State, l: Label)
    requires Enabled(cfg, s, l) && WorkersOk(s)
    ensures WorkersOk(Apply(cfg, s, l))
  {
    TasksGrow(cfg, s, l);
    var s' := Apply(cfg, s, l);
    if IsWorkerStep(l) {
      WorkerStaysWellFormed(cfg, s, l);
      assert s'.workers == s.workers[l.w := WorkerAfter(s, l)];
    }
  }

  lemma WorkerStaysWellFormed(cfg: Config, s: State, l: Label)
    requires Enabled(cfg, s, l) && WorkersOk(s) && IsWorkerStep(l)
    ensures WellFormed(WorkerAfter(s, l))
    ensures WorkerAfter(s, l).InSession? ==> forall i :: 0 <= i < |WorkerAfter(s, l).done| ==> WorkerAfter(s, l).done[i] < |s.sh.tasks|
  {
    var worker := s.workers[l.w];
    assert WellFormed(worker);
    if l.Seal? {
      SealedIsWellFormed(s.sh.tasks, worker.batch);
    }
  }

  lemma SealedIsWellFormed(tasks: seq<Task>, batch: seq<nat>)
    requires batch != [] && forall i :: 0 <= i < |batch| ==> batch[i] < |tasks|
    ensures WellFormed(Running(GroupByModel(tasks, batch)))
  {
    var groups := GroupByModel(tasks, batch);
    GroupingIsPermutation(tasks, batch);
    assert batch[0] in multiset(batch);
    assert groups != [];
    forall i | 0 <= i < |groups| ensures groups[i] != [] {
      assert IsGroup(tasks, groups[i], batch);
    }
  }

  lemma HeldStaysInRange(cfg: Config, s: State, l: Label)
    requires Enabled(cfg, s, l) && QueueOk(s) && WorkersOk(s)
    ensures forall t: nat :: Held(Any, WorkersAfter(s, l), t) > 0 ==> t < |s.sh.tasks|
  {
    forall t: nat | Held(Any, WorkersAfter(s, l), t) > 0 ensures t < |s.sh.tasks| {
      HeldMoves(cfg, s, l, Any, t);
      if Held(Any, s.workers, t) == 0 {
        assert t in Entering(s, l, Any);
      }
    }
  }

  lemma QueueStaysInRange(cfg: Config, s: State, l: Label)
    requires Enabled(cfg, s, l) && ProducersOk(s) && QueueOk(s)
    ensures forall t :: t in QueueAfter(cfg, s, l) ==> t < |s.sh.tasks|
    ensures forall k :: k in CacheAfter(s, l) ==> CacheAfter(s, l)[k] < |s.sh.tasks|
  {
  }

  lemma StepKeepsShape(cfg: Config, s: State, l: Label)
    requires Shape(s) && Enabled(cfg, s, l)
    ensures Shape(Apply(cfg, s, l))
  {
    StepKeepsSequences(cfg, s, l);
    StepKeepsProducers(cfg, s, l);
    StepKeepsWorkers(cfg, s, l);
    HeldStaysInRange(cfg, s, l);
    QueueStaysInRange(cfg, s, l);
    TasksGrow(cfg, s, l);
  }

  // ----- Runs -----

  ghost predicate Initial(s: State) {
    && s.sh.tasks == [] && s.sh.queue == multiset{} && s.sh.cache == map[] && s.sh.metrics == Metrics(0, 0, 0, 0)
    && s.producers == map[] && s.lives == [] && s.log == [] && s.surplus == 0 && s.cleared == 0
    && forall w :: 0 <= w < |s.workers| ==> s.workers[w] == IDLE
  }

  /** `run` can be taken step by step from `s`. */
  ghost predicate CanRun(cfg: Config, s: State, run: seq<Label>)
    decreases |run|
  {
    run == [] || (Enabled(cfg, s, run[0]) && CanRun(cfg, Apply(cfg, s, run[0]), run[1..]))
  }

  ghost function After(cfg: Config, s: State, run: seq<Label>): State
    requires CanRun(cfg, s, run)
    decreases |run|
  {
    if run == [] then s else After(cfg, Apply(cfg, s, run[0]), run[1..])
  }

  lemma RunOne(cfg: Config, s: State, l: Label, rest: seq<Label>)
    requires Enabled(cfg, s, l) && CanRun(cfg, Apply(cfg, s, l), rest)
    ensures CanRun(cfg, s, [l] + rest) && After(cfg, s, [l] + rest) == After(cfg, Apply(cfg, s, l), rest)
  {
    assert ([l] + rest)[1..] == rest;
  }

  lemma IdleHoldsNothing(kind: Kind, ws: seq<Worker>, t: nat)
    requires forall w :: 0 <= w < |ws| ==> ws[w] == IDLE
    ensures Held(kind, ws, t) == 0 && HeldSize(ws) == 0
  {
    SumZero(seq(|ws|, i requires 0 <= i < |ws| => Count(Part(kind, ws[i]), t)));
    SumZero(seq(|ws|, i requires 0 <= i < |ws| => |Part(Any, ws[i])|));
  }

  lemma InitialShape(s: State)
    requires Initial(s)
    ensures Shape(s)
  {
    forall t: nat ensures Held(Any, s.workers, t) == 0 { IdleHoldsNothing(Any, s.workers, t); }
  }
}
