/**
 Durability: what becomes of the effect of a submission. Being executed is not enough. The session
 may be rolled back, as a whole when its commit fails or by an upsert in its middle; an update that
 runs again names no row any more; an upsert may find nothing to fall back on. And a session that is
 rolled back may have been committed in part. The log of executions keeps the books.
 */
module WriteQueueDurable {
  import opened Prelude
  import opened WriteQueue
  import opened WriteQueueMoves
  import opened WriteQueueSafety
  import opened WriteQueueRuns
  import opened WriteQueueHeap

  // ----- Counting in the log -----

  function OfTask(t: nat): Attempt -> bool {
    (a: Attempt) => a.task == t
  }

  function With(t: nat, ok: bool, fate: Fate): Attempt -> bool {
    (a: Attempt) => a.task == t && a.ok == ok && a.fate == fate
  }

  /** Executions in the open session of worker `w`. */
  function In(t: nat, ok: bool, w: nat): Attempt -> bool {
    (a: Attempt) => a.task == t && a.ok == ok && a.worker == w && a.fate.Unsettled?
  }

  function Tally(log: seq<Attempt>, which: Attempt -> bool): nat {
    |Filter(which, log)|
  }

  lemma TallyAppend(log: seq<Attempt>, a: Attempt, which: Attempt -> bool)
    ensures Tally(log + [a], which) == Tally(log, which) + if which(a) then 1 else 0
  {
    FilterConcat(which, log, [a]);
    FilterOne(which, a);
  }

  lemma TallyPositive(log: seq<Attempt>, which: Attempt -> bool)
    ensures Tally(log, which) > 0 <==> exists a :: a in log && which(a)
  {
    var chosen := Filter(which, log);
    if chosen != [] {
      assert chosen[0] in chosen;
    }
  }

  lemma EachTail(f: Attempt -> Attempt, log: seq<Attempt>)
    requires log != []
    ensures Each(f, log)[0] == f(log[0]) && Each(f, log)[1..] == Each(f, log[1..])
  {
  }

  lemma {:induction false} TallyEach(f: Attempt -> Attempt, log: seq<Attempt>, which: Attempt -> bool)
    requires forall a :: a in log ==> which(f(a)) == which(a)
    ensures Tally(Each(f, log), which) == Tally(log, which)
  {
    if log != [] {
      EachTail(f, log);
      TallyEach(f, log[1..], which);
    }
  }

  lemma {:induction false} TallySettled(log: seq<Attempt>, w: nat, ok: bool, t: nat, k: bool, fate: Fate)
    ensures Tally(Each(Settle(w, ok), log), With(t, k, fate)) + (if fate.Unsettled? then Tally(log, In(t, k, w)) else 0)
            == Tally(log, With(t, k, fate))
               + if fate == (if ok then Committed else RolledBack) then Tally(log, In(t, k, w)) else 0
  {
    if log != [] {
      EachTail(Settle(w, ok), log);
      TallySettled(log[1..], w, ok, t, k, fate);
    }
  }

  lemma {:induction false} TallyOpenSettled(log: seq<Attempt>, w: nat, ok: bool, t: nat, k: bool, v: nat)
    ensures Tally(Each(Settle(w, ok), log), In(t, k, v)) == if v == w then 0 else Tally(log, In(t, k, v))
  {
    if log != [] {
      EachTail(Settle(w, ok), log);
      TallyOpenSettled(log[1..], w, ok, t, k, v);
    }
  }

  /** An execution adds its entry; deciding a transaction changes no other count that does not ask for it. */
  lemma TallyExecuted(s: State, l: Label, which: Attempt -> bool)
    requires l.Execute? && AtTask(s, l.w)
    requires forall a, kept :: which(Decide(l.w, kept)(a)) == which(a)
    ensures var log' := LogAfter(s, l);
            log' != [] && Tally(log', which) == Tally(s.log, which) + if which(log'[|log'| - 1]) then 1 else 0
  {
    var log' := LogAfter(s, l);
    var before := Decided(s.log, l.w, l.inside);
    TallyEach(Decide(l.w, l.inside.CommitsEarly?), s.log, which);
    TallyAppend(before, log'[|log'| - 1], which);
    assert log' == before + [log'[|log'| - 1]];
  }

  // ----- The books on one task -----

  function OpenIn(log: seq<Attempt>, t: nat, w: nat): nat {
    Tally(log, In(t, true, w)) + Tally(log, In(t, false, w))
  }

  /** Each open session has on the log what it has worked through. */
  ghost predicate SessionsLogged(s: State, t: nat) {
    forall w :: 0 <= w < |s.workers| ==> OpenIn(s.log, t, w) == Count(DoneOf(s.workers[w]), t)
  }

  /**
   A task is in as many places as it was queued and not committed yet, where a failed execution in a
   session that was then rolled back counts double: both failures queue it.
   */
  predicate PlacesBalance(s: State, t: nat)
    requires t < |s.lives|
  {
    s.sh.queue[t] + Held(Any, s.workers, t) + Tally(s.log, With(t, true, Unsettled)) + Tally(s.log, With(t, true, Committed))
    <= (if s.lives[t].enqueued then 1 else 0) + Tally(s.log, With(t, false, RolledBack))
  }

  /** A successful execution whose session is open or was committed. */
  function Hopeful(t: nat): Attempt -> bool {
    (a: Attempt) => a.task == t && a.ok && !a.fate.RolledBack?
  }

  ghost predicate Kept(s: State, t: nat)
    requires t < |s.lives|
  {
    var life := s.lives[t];
    life.enqueued ==>
      life.dropped || life.reported > 0 || IsLive(s, t) || exists a :: a in s.log && Hopeful(t)(a)
  }

  /** The data of a task is the in-order update of all it carries; an update that has run has lost its row id. */
  predicate DataNow(s: State, t: nat)
    requires t < |s.lives| && t < |s.sh.tasks|
  {
    var life, task := s.lives[t], s.sh.tasks[t];
    task.data == if task.op == Update && life.executed > 0 then Fold(life.merged) - {"id"} else Fold(life.merged)
  }

  ghost predicate BooksOk(s: State, t: nat)
    requires t < |s.lives| && t < |s.sh.tasks|
  {
    && DataNow(s, t) && Tally(s.log, OfTask(t)) == s.lives[t].executed
    && SessionsLogged(s, t) && PlacesBalance(s, t) && Kept(s, t)
  }

  /**
   An execution names a row if its submissions do, and, for an update, it is the first of its task. An
   upsert that fell back needs a field to look the row up by.
   */
  ghost predicate Names(s: State, i: nat)
    requires i < |s.log| && s.log[i].task < |s.lives| && s.log[i].task < |s.sh.tasks|
  {
    var a := s.log[i];
    var op, data := s.sh.tasks[a.task].op, Fold(s.lives[a.task].merged);
    if a.fellBack then NamesToFallBackOn(data)
    else NamesARow(op, data) && (op == Update ==> forall j :: 0 <= j < i ==> s.log[j].task != a.task)
  }

  ghost predicate EntryOk(s: State, i: nat)
    requires i < |s.log|
  {
    var a := s.log[i];
    && a.worker < |s.workers| && a.task < |s.lives| && a.task < |s.sh.tasks|
    && (a.fellBack ==> s.sh.tasks[a.task].op == Upsert)
    && (a.effect.InTransaction? ==> a.ok && a.fate.Unsettled?)
    && (a.names <==> Names(s, i))
  }

  ghost predicate Books(cfg: Config, s: State) {
    && Inv(cfg, s)
    && (forall t :: 0 <= t < |s.lives| ==> BooksOk(s, t))
    && (forall i :: 0 <= i < |s.log| ==> EntryOk(s, i))
  }

  // ----- Every step keeps the books -----

  lemma StepKeepsDataNow(cfg: Config, s: State, l: Label, t: nat)
    requires Enabled(cfg, s, l) && t < |s.lives| && CachedOk(s, t) && DataNow(s, t)
    ensures t < |Apply(cfg, s, l).lives| && t < |Apply(cfg, s, l).sh.tasks| && DataNow(Apply(cfg, s, l), t)
  {
    AfterAt(cfg, s, l, t);
    ExecutedDelta(cfg, s, l, t);
    if MergesInto(s, l, t) {
      DataMerged(cfg, s, l, t);
    } else {
      DataKept(cfg, s, l, t);
    }
  }

  lemma DataMerged(cfg: Config, s: State, l: Label, t: nat)
    requires Enabled(cfg, s, l) && t < |s.lives| && MergesInto(s, l, t)
    ensures var data := s.sh.tasks[s.producers[l.p].task].data;
            && LifeAfter(cfg, s, l, t).merged == s.lives[t].merged + [data]
            && Fold(s.lives[t].merged + [data]) == Fold(s.lives[t].merged) + data
            && TaskAfter(cfg, s, l, t) == Merged(s.sh.tasks[t], data)
  {
    var parts, data := s.lives[t].merged, s.sh.tasks[s.producers[l.p].task].data;
    assert (parts + [data])[..|parts|] == parts;
  }

  lemma DataKept(cfg: Config, s: State, l: Label, t: nat)
    requires Enabled(cfg, s, l) && t < |s.lives| && !MergesInto(s, l, t)
    ensures LifeAfter(cfg, s, l, t).merged == s.lives[t].merged && TaskAfter(cfg, s, l, t).op == s.sh.tasks[t].op
    ensures TaskAfter(cfg, s, l, t).data
            == if Executes(s, l, t) && s.sh.tasks[t].op == Update then s.sh.tasks[t].data - {"id"} else s.sh.tasks[t].data
  {
  }

  lemma StepKeepsCount(cfg: Config, s: State, l: Label, t: nat)
    requires Enabled(cfg, s, l) && t < |s.lives| && Tally(s.log, OfTask(t)) == s.lives[t].executed
    ensures Tally(LogAfter(s, l), OfTask(t)) == LifeAfter(cfg, s, l, t).executed
  {
    ExecutedDelta(cfg, s, l, t);
    if l.Execute? {
      TallyExecuted(s, l, OfTask(t));
    } else if l.Commit? {
      TallyEach(Settle(l.w, l.ok), s.log, OfTask(t));
    }
  }

  lemma OpenDelta(cfg: Config, s: State, l: Label, t: nat, k: bool, v: nat)
    requires Enabled(cfg, s, l)
    ensures Tally(LogAfter(s, l), In(t, k, v))
            == (if l.Commit? && l.w == v then 0 else Tally(s.log, In(t, k, v)))
               + if Executes(s, l, t) && l.w == v && l.ok == k then 1 else 0
  {
    if l.Execute? {
      TallyExecuted(s, l, In(t, k, v));
    } else if l.Commit? {
      TallyOpenSettled(s.log, l.w, l.ok, t, k, v);
    }
  }

  lemma WithDelta(cfg: Config, s: State, l: Label, t: nat, k: bool, fate: Fate)
    requires Enabled(cfg, s, l)
    ensures Tally(LogAfter(s, l), With(t, k, fate))
            + (if l.Commit? && fate.Unsettled? then Tally(s.log, In(t, k, l.w)) else 0)
            == Tally(s.log, With(t, k, fate))
               + (if Executes(s, l, t) && l.ok == k && fate.Unsettled? then 1 else 0)
               + if l.Commit? && fate == (if l.ok then Committed else RolledBack) then Tally(s.log, In(t, k, l.w)) else 0
  {
    if l.Execute? {
      TallyExecuted(s, l, With(t, k, fate));
    } else if l.Commit? {
      TallySettled(s.log, l.w, l.ok, t, k, fate);
    }
  }

  lemma StepKeepsSessionsLogged(cfg: Config, s: State, l: Label, t: nat)
    requires Enabled(cfg, s, l) && SessionsLogged(s, t)
    ensures SessionsLogged(Apply(cfg, s, l), t)
  {
    var s' := Apply(cfg, s, l);
    forall w | 0 <= w < |s'.workers| ensures OpenIn(s'.log, t, w) == Count(DoneOf(s'.workers[w]), t) {
      OpenDelta(cfg, s, l, t, true, w);
      OpenDelta(cfg, s, l, t, false, w);
      DoneAt(cfg, s, l, t, w);
    }
  }

  lemma DoneAt(cfg: Config, s: State, l: Label, t: nat, w: nat)
    requires Enabled(cfg, s, l) && w < |s.workers|
    ensures w < |WorkersAfter(s, l)|
    ensures Count(DoneOf(WorkersAfter(s, l)[w]), t)
            == (if l.Commit? && l.w == w then 0 else Count(DoneOf(s.workers[w]), t))
               + if Executes(s, l, t) && l.w == w then 1 else 0
  {
    if IsWorkerStep(l) {
      DoneAfter(s, l, t);
    }
  }

  lemma StepKeepsPlacesBalance(cfg: Config, s: State, l: Label, t: nat)
    requires Enabled(cfg, s, l) && Shape(s) && t < |s.lives| && TaskOk(cfg, s, t) && SessionsLogged(s, t) && PlacesBalance(s, t)
    ensures t < |Apply(cfg, s, l).lives| && PlacesBalance(Apply(cfg, s, l), t)
  {
    AfterAt(cfg, s, l, t);
    RecordDelta(cfg, s, l, t);
    QueueDelta(cfg, s, l, t);
    HeldMoves(cfg, s, l, Any, t);
    WithDelta(cfg, s, l, t, true, Unsettled);
    WithDelta(cfg, s, l, t, true, Committed);
    WithDelta(cfg, s, l, t, false, RolledBack);
    PlacesMoved(cfg, s, l, t);
  }

  /** What leaves and enters the workers' hands, in terms of what happens to the task. */
  lemma PlacesMoved(cfg: Config, s: State, l: Label, t: nat)
    requires Enabled(cfg, s, l) && t < |s.lives| && ProducersOk(s) && SessionsLogged(s, t)
    ensures Count(Entering(s, l, Any), t)
            == if l.Pop? && l.t == t then 1
               else if l.Commit? && !l.ok then OpenIn(s.log, t, l.w) else 0
    ensures Count(Leaving(s, l, Any), t) >= if FailsAttempt(s, l, t) || Executes(s, l, t) then 1 else 0
    ensures Requeues(cfg, s, l, t) ==> FailsAttempt(s, l, t)
    ensures Pushes(s, l, t) ==> !s.lives[t].enqueued
  {
  }

  lemma StepKeepsKept(cfg: Config, s: State, l: Label, t: nat)
    requires Enabled(cfg, s, l) && t < |s.lives| && SessionsLogged(s, t) && ProducersOk(s) && Kept(s, t)
    requires forall i :: 0 <= i < |s.log| ==> EntryOk(s, i)
    ensures t < |Apply(cfg, s, l).lives| && Kept(Apply(cfg, s, l), t)
  {
    var s' := Apply(cfg, s, l);
    AfterAt(cfg, s, l, t);
    RecordDelta(cfg, s, l, t);
    ReportedDelta(cfg, s, l, t);
    QueueDelta(cfg, s, l, t);
    HeldMoves(cfg, s, l, Any, t);
    PlacesMoved(cfg, s, l, t);
    if s'.lives[t].enqueued {
      if exists a :: a in s.log && Hopeful(t)(a) {
        HopeStays(cfg, s, l, t);
      } else if Executes(s, l, t) && l.ok {
        HopeComes(s, l, t);
      } else if t in Leaving(s, l, Any) {
        LeavesAccounted(s, l, t);
      }
    }
  }

  lemma HopeComes(s: State, l: Label, t: nat)
    requires Executes(s, l, t) && l.ok
    ensures exists a :: a in LogAfter(s, l) && Hopeful(t)(a)
  {
    var log' := LogAfter(s, l);
    assert Hopeful(t)(log'[|log'| - 1]);
  }

  /** A failed commit takes the hope away but hands the task back to the worker. */
  lemma HopeStays(cfg: Config, s: State, l: Label, t: nat)
    requires Enabled(cfg, s, l) && SessionsLogged(s, t)
    requires forall i :: 0 <= i < |s.log| ==> EntryOk(s, i)
    requires exists a :: a in s.log && Hopeful(t)(a)
    ensures || (exists a :: a in LogAfter(s, l) && Hopeful(t)(a))
            || Count(Entering(s, l, Any), t) > 0
  {
    var a :| a in s.log && Hopeful(t)(a);
    var i :| 0 <= i < |s.log| && s.log[i] == a;
    var log' := LogAfter(s, l);
    if l.Commit? && !l.ok && a.fate.Unsettled? && a.worker == l.w {
      TallyPositive(s.log, In(t, true, l.w));
      assert In(t, true, l.w)(a);
    } else {
      assert log'[i].task == t && log'[i].ok && !log'[i].fate.RolledBack?;
      assert log'[i] in log';
    }
  }

  lemma StepKeepsEntry(cfg: Config, s: State, l: Label, i: nat)
    requires Enabled(cfg, s, l) && i < |s.log| && EntryOk(s, i)
    requires var t := s.log[i].task;
             CachedOk(s, t) && Tally(s.log, OfTask(t)) == s.lives[t].executed
    ensures i < |Apply(cfg, s, l).log| && EntryOk(Apply(cfg, s, l), i)
  {
    var t, s' := s.log[i].task, Apply(cfg, s, l);
    AfterAt(cfg, s, l, t);
    TasksGrow(cfg, s, l);
    TallyPositive(s.log, OfTask(t));
    assert s.log[i] in s.log && OfTask(t)(s.log[i]);
    MergedFrozen(cfg, s, l, t);
    LogGrows(s, l);
    assert |s'.workers| == |s.workers|;
  }

  /** Entries keep their place, task, worker and whether they named a row. */
  lemma LogGrows(s: State, l: Label)
    ensures |LogAfter(s, l)| == |s.log| + if l.Execute? && AtTask(s, l.w) then 1 else 0
    ensures forall i :: 0 <= i < |s.log| ==>
              var a, b := s.log[i], LogAfter(s, l)[i];
              && a.task == b.task && a.worker == b.worker && a.names == b.names && a.ok == b.ok && a.fellBack == b.fellBack
              && (b.effect.InTransaction? ==> a.effect.InTransaction? && b.fate == a.fate)
              && (a.effect.Durable? ==> b.effect.Durable?)
  {
  }

  lemma MergedFrozen(cfg: Config, s: State, l: Label, t: nat)
    requires Enabled(cfg, s, l) && t < |s.lives| && CachedOk(s, t)
    ensures TaskAfter(cfg, s, l, t).op == s.sh.tasks[t].op
    ensures s.lives[t].executed > 0 ==> LifeAfter(cfg, s, l, t).merged == s.lives[t].merged
  {
  }

  lemma NewEntryOk(cfg: Config, s: State, l: Label)
    requires Enabled(cfg, s, l) && Shape(s) && l.Execute?
    requires var t := Current(s, l.w); CachedOk(s, t) && BooksOk(s, t)
    ensures |Apply(cfg, s, l).log| == |s.log| + 1 && EntryOk(Apply(cfg, s, l), |s.log|)
  {
    var t, s', n := Current(s, l.w), Apply(cfg, s, l), |s.log|;
    AfterAt(cfg, s, l, t);
    TasksGrow(cfg, s, l);
    LogGrows(s, l);
    NamesAtExecution(s, t);
    assert s'.log[n] == EntryOf(s, l.w, l.ok, l.inside);
    assert s'.lives[t].merged == s.lives[t].merged && s'.sh.tasks[t].op == s.sh.tasks[t].op;
    assert forall j :: 0 <= j < n ==> s'.log[j].task == s.log[j].task;
  }

  /** What a task's data names at this moment. */
  lemma NamesAtExecution(s: State, t: nat)
    requires t < |s.lives| && t < |s.sh.tasks| && DataNow(s, t) && Tally(s.log, OfTask(t)) == s.lives[t].executed
    ensures var task := s.sh.tasks[t];
            NamesARow(task.op, task.data)
            <==> NamesARow(task.op, Fold(s.lives[t].merged))
                 && (task.op == Update ==> forall j :: 0 <= j < |s.log| ==> s.log[j].task != t)
    ensures s.sh.tasks[t].op != Update ==> s.sh.tasks[t].data == Fold(s.lives[t].merged)
  {
    TallyPositive(s.log, OfTask(t));
    if s.lives[t].executed > 0 {
      var a :| a in s.log && OfTask(t)(a);
      var j :| 0 <= j < |s.log| && s.log[j] == a;
      assert s.log[j].task == t;
    } else {
      assert forall j :: 0 <= j < |s.log| ==> s.log[j] in s.log;
      assert forall j :: 0 <= j < |s.log| ==> !OfTask(t)(s.log[j]);
    }
  }

  lemma NewTaskBooks(cfg: Config, s: State, l: Label)
    requires Enabled(cfg, s, l) && Shape(s) && l.Create? && forall i :: 0 <= i < |s.log| ==> EntryOk(s, i)
    ensures var s', t := Apply(cfg, s, l), |s.lives|;
            t < |s'.lives| && t < |s'.sh.tasks| && BooksOk(s', t)
  {
    var s', t := Apply(cfg, s, l), |s.lives|;
    TasksGrow(cfg, s, l);
    assert s'.sh.tasks[t] == NewTask(s, l) && s'.lives[t].merged == [l.data];
    assert [l.data][..0] == [] && Fold([l.data]) == map[] + l.data == l.data;
    forall a | a in s.log ensures a.task != t {
      var i :| 0 <= i < |s.log| && s.log[i] == a;
      assert EntryOk(s, i);
    }
    NothingLogged(s.log, t);
    forall w | 0 <= w < |s.workers| ensures Count(DoneOf(s.workers[w]), t) == 0 && OpenIn(s.log, t, w) == 0 {
      NothingLoggedIn(s.log, t, w);
      assert s.workers[w].InSession? ==> forall i :: 0 <= i < |s.workers[w].done| ==> s.workers[w].done[i] < t;
    }
    assert Held(Any, s.workers, t) == 0 && s.sh.queue[t] == 0;
  }

  lemma NothingLogged(log: seq<Attempt>, t: nat)
    requires forall a :: a in log ==> a.task != t
    ensures Tally(log, OfTask(t)) == 0 && forall ok, fate :: Tally(log, With(t, ok, fate)) == 0
  {
    TallyPositive(log, OfTask(t));
    forall ok, fate ensures Tally(log, With(t, ok, fate)) == 0 {
      TallyPositive(log, With(t, ok, fate));
    }
  }

  lemma NothingLoggedIn(log: seq<Attempt>, t: nat, w: nat)
    requires forall a :: a in log ==> a.task != t
    ensures OpenIn(log, t, w) == 0
  {
    TallyPositive(log, In(t, true, w));
    TallyPositive(log, In(t, false, w));
  }

  lemma StepKeepsTaskBooks(cfg: Config, s: State, l: Label, t: nat)
    requires Books(cfg, s) && Enabled(cfg, s, l) && t < |s.lives|
    ensures t < |Apply(cfg, s, l).lives| && t < |Apply(cfg, s, l).sh.tasks| && BooksOk(Apply(cfg, s, l), t)
  {
    assert TaskOk(cfg, s, t) && BooksOk(s, t);
    AfterAt(cfg, s, l, t);
    StepKeepsDataNow(cfg, s, l, t);
    StepKeepsCount(cfg, s, l, t);
    StepKeepsSessionsLogged(cfg, s, l, t);
    StepKeepsPlacesBalance(cfg, s, l, t);
    StepKeepsKept(cfg, s, l, t);
  }

  lemma StepKeepsLog(cfg: Config, s: State, l: Label, i: nat)
    requires Books(cfg, s) && Enabled(cfg, s, l) && i < |Apply(cfg, s, l).log|
    ensures EntryOk(Apply(cfg, s, l), i)
  {
    LogGrows(s, l);
    if i < |s.log| {
      TaskOfEntry(cfg, s, i);
      StepKeepsEntry(cfg, s, l, i);
    } else {
      BooksOf(cfg, s, Current(s, l.w));
      NewEntryOk(cfg, s, l);
    }
  }

  lemma BooksOf(cfg: Config, s: State, t: nat)
    requires Books(cfg, s) && t < |s.lives|
    ensures t < |s.sh.tasks| && TaskOk(cfg, s, t) && BooksOk(s, t)
  {
  }

  lemma TaskOfEntry(cfg: Config, s: State, i: nat)
    requires Books(cfg, s) && i < |s.log|
    ensures EntryOk(s, i) && TaskOk(cfg, s, s.log[i].task) && BooksOk(s, s.log[i].task)
  {
    assert EntryOk(s, i);
    BooksOf(cfg, s, s.log[i].task);
  }

  lemma StepKeepsBooks(cfg: Config, s: State, l: Label)
    requires Books(cfg, s) && Enabled(cfg, s, l)
    ensures Books(cfg, Apply(cfg, s, l))
  {
    var s' := Apply(cfg, s, l);
    StepKeepsInv(cfg, s, l);
    TasksGrow(cfg, s, l);
    forall t | 0 <= t < |s'.lives| ensures BooksOk(s', t) {
      if t < |s.lives| {
        StepKeepsTaskBooks(cfg, s, l, t);
      } else {
        NewTaskBooks(cfg, s, l);
      }
    }
    forall i | 0 <= i < |s'.log| ensures EntryOk(s', i) {
      StepKeepsLog(cfg, s, l, i);
    }
  }

  lemma {:induction false} RunKeepsBooks(cfg: Config, s: State, run: seq<Label>)
    requires Books(cfg, s) && CanRun(cfg, s, run)
    ensures Books(cfg, After(cfg, s, run))
    decreases |run|
  {
    if run != [] {
      StepKeepsBooks(cfg, s, run[0]);
      RunKeepsBooks(cfg, Apply(cfg, s, run[0]), run[1..]);
    }
  }

  lemma ReachableBooks(cfg: Config, s0: State, run: seq<Label>)
    requires Initial(s0) && CanRun(cfg, s0, run)
    ensures Books(cfg, After(cfg, s0, run))
  {
    InitialInv(cfg, s0);
    RunKeepsBooks(cfg, s0, run);
  }

  // ----- When an update still names a row -----

  /** An update task names a row exactly until its first execution, provided its submissions name one. */
  lemma UpdateNamesARowIffNeverRun(cfg: Config, s0: State, run: seq<Label>, t: nat)
    requires Initial(s0) && CanRun(cfg, s0, run)
    requires var s := After(cfg, s0, run);
             t < |s.lives| && t < |s.sh.tasks| && s.sh.tasks[t].op == Update
    ensures var s := After(cfg, s0, run);
            NamesARow(Update, s.sh.tasks[t].data)
            <==> s.lives[t].executed == 0 && NamesARow(Update, Fold(s.lives[t].merged))
  {
    ReachableBooks(cfg, s0, run);
    assert BooksOk(After(cfg, s0, run), t);
  }

  /**
   What an execution names, from what its submissions say. In every interleaving, an insert and an upsert name a
   row of their own; a deletion names one if an id that is not zero was submitted, and so does the first execution
   of an update, but no later one; an upsert that fell back needs such an id or file id.
   */
  lemma ExecutionNamesIff(cfg: Config, s0: State, run: seq<Label>, i: nat)
    requires Initial(s0) && CanRun(cfg, s0, run) && i < |After(cfg, s0, run).log|
    ensures var s := After(cfg, s0, run);
            var t := s.log[i].task;
            && t < |s.lives| && t < |s.sh.tasks|
            && var data, op := Fold(s.lives[t].merged), s.sh.tasks[t].op;
               var id, fileId := "id" in data && data["id"] != 0, "file_id" in data && data["file_id"] != 0;
               s.log[i].names <==>
                 || op == Insert
                 || (op == Upsert && (!s.log[i].fellBack || id || fileId))
                 || (op == Remove && id)
                 || (op == Update && id && forall j :: 0 <= j < i ==> s.log[j].task != t)
  {
    ReachableBooks(cfg, s0, run);
    assert EntryOk(After(cfg, s0, run), i);
  }

  // ----- What becomes of a write -----

  /** Nothing further can happen to the task: not pending, not queued, in no worker's hands, in no open session. */
  ghost predicate AtRest(s: State, t: nat)
    requires t < |s.lives|
  {
    && !IsPending(s, t) && !IsLive(s, t)
    && forall w :: 0 <= w < |s.workers| ==> t !in DoneOf(s.workers[w])
  }

  /** A successful execution in a committed session. */
  function Succeeded(t: nat): Attempt -> bool {
    With(t, true, Committed)
  }

  /** An execution of the task that was made durable, by its session's commit or by an upsert's own. */
  function MadeDurable(t: nat): Attempt -> bool {
    (a: Attempt) => a.task == t && a.effect.Durable?
  }

  ghost predicate AnyDurable(s: State, t: nat) {
    exists a :: a in s.log && MadeDurable(t)(a)
  }

  /** The write is in the database: an execution that named its row was made durable. */
  ghost predicate TookEffect(s: State, t: nat) {
    exists a :: a in s.log && MadeDurable(t)(a) && a.names
  }

  /** The entry at `i` is the first execution of its task. */
  ghost predicate IsFirst(s: State, i: nat)
    requires i < |s.log|
  {
    forall j :: 0 <= j < i ==> s.log[j].task != s.log[i].task
  }

  ghost predicate FirstDurable(s: State, t: nat) {
    exists i :: 0 <= i < |s.log| && MadeDurable(t)(s.log[i]) && IsFirst(s, i)
  }

  lemma RestHasNoOpenEntry(s: State, t: nat, a: Attempt)
    requires t < |s.lives| && AtRest(s, t) && SessionsLogged(s, t)
    requires a in s.log && a.task == t && a.worker < |s.workers|
    ensures !a.fate.Unsettled?
  {
    TallyPositive(s.log, In(t, a.ok, a.worker));
    assert t !in DoneOf(s.workers[a.worker]);
    assert In(t, a.ok, a.worker)(a) <==> a.fate.Unsettled?;
  }

  /**
   Nothing queued disappears: a queued task at rest was cleared, was reported as failed, or succeeded
   in a session that was committed.
   */
  lemma QueuedTaskSucceedsOrIsReported(cfg: Config, s0: State, run: seq<Label>, t: nat)
    requires Initial(s0) && CanRun(cfg, s0, run)
    requires var s := After(cfg, s0, run);
             t < |s.lives| && s.lives[t].enqueued && AtRest(s, t) && !s.lives[t].dropped && s.lives[t].reported == 0
    ensures exists a :: a in After(cfg, s0, run).log && Succeeded(t)(a)
  {
    ReachableBooks(cfg, s0, run);
    var s := After(cfg, s0, run);
    assert BooksOk(s, t);
    var a :| a in s.log && Hopeful(t)(a);
    var i :| 0 <= i < |s.log| && s.log[i] == a;
    assert EntryOk(s, i);
    RestHasNoOpenEntry(s, t, a);
    assert Succeeded(t)(a);
  }

  /**
   The write of a task takes effect through any durable execution, but that of an update only through
   its first, and that of an upsert that fell back only if it could look a row up.
   */
  lemma EffectMeans(cfg: Config, s: State, t: nat)
    requires Books(cfg, s) && t < |s.lives|
    ensures var op, data := s.sh.tasks[t].op, Fold(s.lives[t].merged);
            TookEffect(s, t)
            <==> && NamesARow(op, data) && AnyDurable(s, t)
                 && (op == Update ==> FirstDurable(s, t))
                 && (op == Upsert ==> NamesToFallBackOn(data) || exists a :: a in s.log && MadeDurable(t)(a) && !a.fellBack)
  {
    forall i | 0 <= i < |s.log| && s.log[i].task == t
      ensures EntryOk(s, i) && (s.log[i].names <==> Names(s, i)) && s.log[i] in s.log
    {
      assert EntryOk(s, i);
    }
    if TookEffect(s, t) {
      var a :| a in s.log && MadeDurable(t)(a) && a.names;
      var i :| 0 <= i < |s.log| && s.log[i] == a;
      assert Names(s, i);
      assert s.sh.tasks[t].op == Update ==> IsFirst(s, i);
    } else if AnyDurable(s, t) {
      DurableWithoutEffect(cfg, s, t);
    }
  }

  lemma DurableWithoutEffect(cfg: Config, s: State, t: nat)
    requires Books(cfg, s) && t < |s.lives| && AnyDurable(s, t) && !TookEffect(s, t)
    ensures var op, data := s.sh.tasks[t].op, Fold(s.lives[t].merged);
            || !NamesARow(op, data) || (op == Update && !FirstDurable(s, t))
            || (op == Upsert && !NamesToFallBackOn(data) && forall a :: a in s.log && MadeDurable(t)(a) ==> a.fellBack)
  {
    var op, data := s.sh.tasks[t].op, Fold(s.lives[t].merged);
    forall i | 0 <= i < |s.log| && MadeDurable(t)(s.log[i]) ensures EntryOk(s, i) && !s.log[i].names && !Names(s, i) {
      assert EntryOk(s, i) && s.log[i] in s.log;
    }
    var a :| a in s.log && MadeDurable(t)(a);
    var i :| 0 <= i < |s.log| && s.log[i] == a;
    if op == Upsert {
      forall b | b in s.log && MadeDurable(t)(b) ensures b.fellBack && !NamesToFallBackOn(data) {
        var j :| 0 <= j < |s.log| && s.log[j] == b;
        assert !Names(s, j);
      }
    } else if op == Update && FirstDurable(s, t) {
      var j :| 0 <= j < |s.log| && MadeDurable(t)(s.log[j]) && IsFirst(s, j);
      assert !Names(s, j);
    } else {
      assert !Names(s, i);
    }
  }

  /** The write is over, was not reported as failed once it was queued, and is not in the database. */
  ghost predicate SilentlyLost(s: State, t: nat)
    requires t < |s.lives|
  {
    AtRest(s, t) && !s.lives[t].absorbed && s.lives[t].reported == 0 && !TookEffect(s, t)
  }

  // ----- The ways in which a write can be lost -----

  /** The submitter of the task itself is told; whoever had a submission merged into it is not. */
  ghost predicate WasRefused(s: State, t: nat)
    requires t < |s.lives|
  {
    s.lives[t].refused
  }

  ghost predicate WasCleared(s: State, t: nat)
    requires t < |s.lives|
  {
    s.lives[t].dropped && !AnyDurable(s, t)
  }

  /** It succeeded in committed sessions, but each time an upsert that fell back had rolled it back before. */
  ghost predicate WasUndone(s: State, t: nat) {
    && (exists a :: a in s.log && Succeeded(t)(a))
    && !AnyDurable(s, t) && forall a :: a in s.log && Succeeded(t)(a) ==> a.effect.Discarded?
  }

  predicate NamedNoRow(s: State, t: nat)
    requires t < |s.lives| && t < |s.sh.tasks|
  {
    !NamesARow(s.sh.tasks[t].op, Fold(s.lives[t].merged))
  }

  /** The first execution of an update was not made durable; later ones name no row. */
  ghost predicate LostItsRow(s: State, t: nat)
    requires t < |s.sh.tasks|
  {
    s.sh.tasks[t].op == Update && !FirstDurable(s, t)
  }

  /** Every durable execution of an upsert fell back, and there was nothing to look a row up by. */
  ghost predicate FellBackOnNothing(s: State, t: nat)
    requires t < |s.lives| && t < |s.sh.tasks|
  {
    && s.sh.tasks[t].op == Upsert && !NamesToFallBackOn(Fold(s.lives[t].merged))
    && forall a :: a in s.log && MadeDurable(t)(a) ==> a.fellBack
  }

  ghost predicate CanBeLost(s: State, t: nat)
    requires t < |s.lives| && t < |s.sh.tasks|
  {
    || WasRefused(s, t) || WasCleared(s, t) || WasUndone(s, t)
    || NamedNoRow(s, t) || LostItsRow(s, t) || FellBackOnNothing(s, t)
  }

  /**
   The ways to lose a write, exactly. In every interleaving, a write is silently lost if and only if it
   is over, was not reported as failed, and one of these holds: its submission was refused; it was
   cleared before anything of it was durable; it succeeded, but an upsert that fell back had undone it;
   it named no row to begin with; it is an update whose first execution was not made durable; or it is
   an upsert that fell back with nothing to look a row up by.
   */
  lemma SilentlyLostIff(cfg: Config, s0: State, run: seq<Label>, t: nat)
    requires Initial(s0) && CanRun(cfg, s0, run) && t < |After(cfg, s0, run).lives|
    ensures var s := After(cfg, s0, run);
            && t < |s.sh.tasks|
            && (SilentlyLost(s, t)
                <==> AtRest(s, t) && !s.lives[t].absorbed && s.lives[t].reported == 0 && CanBeLost(s, t))
  {
    ReachableBooks(cfg, s0, run);
    var s := After(cfg, s0, run);
    BooksOf(cfg, s, t);
    if CanBeLost(s, t) {
      CanBeLostHasNoEffect(cfg, s, t);
    }
    if AtRest(s, t) && !s.lives[t].absorbed && s.lives[t].reported == 0 && !s.lives[t].refused && !s.lives[t].dropped {
      QueuedTaskSucceedsOrIsReported(cfg, s0, run, t);
      SuccessIsDecided(cfg, s, t);
    }
    if SilentlyLost(s, t) && AnyDurable(s, t) {
      DurableWithoutEffect(cfg, s, t);
    }
  }

  lemma CanBeLostHasNoEffect(cfg: Config, s: State, t: nat)
    requires Books(cfg, s) && t < |s.lives| && t < |s.sh.tasks| && CanBeLost(s, t)
    ensures !TookEffect(s, t)
  {
    BooksOf(cfg, s, t);
    EffectMeans(cfg, s, t);
    if s.lives[t].refused {
      NeverRunHasNoEntry(s, t);
    }
  }

  /** A success in a committed session is durable or was undone. */
  lemma SuccessIsDecided(cfg: Config, s: State, t: nat)
    requires Books(cfg, s)
    ensures forall a :: a in s.log && Succeeded(t)(a) ==> MadeDurable(t)(a) || a.effect.Discarded?
  {
    forall a | a in s.log && Succeeded(t)(a) ensures MadeDurable(t)(a) || a.effect.Discarded? {
      var i :| 0 <= i < |s.log| && s.log[i] == a;
      assert EntryOk(s, i);
    }
  }

  lemma NeverRunHasNoEntry(s: State, t: nat)
    requires t < |s.lives| && t < |s.sh.tasks| && BooksOk(s, t) && s.lives[t].executed == 0
    ensures forall a :: a in s.log ==> a.task != t
  {
    TallyPositive(s.log, OfTask(t));
    forall a | a in s.log ensures a.task != t {
      assert OfTask(t)(a) ==> Tally(s.log, OfTask(t)) > 0;
    }
  }

  // ----- How often a write is made durable -----

  /** Durable although the queue will run the task again: the session was rolled back, or the execution counts as failed. */
  function DurableAnyway(t: nat): Attempt -> bool {
    (a: Attempt) => a.task == t && a.effect.Durable? && (!a.ok || a.fate.RolledBack?)
  }

  lemma {:induction false} DurableIsCounted(log: seq<Attempt>, t: nat)
    ensures Tally(log, MadeDurable(t))
            <= Tally(log, With(t, true, Unsettled)) + Tally(log, Succeeded(t)) + Tally(log, DurableAnyway(t))
  {
    if log != [] {
      DurableIsCounted(log[1..], t);
    }
  }

  /**
   A task succeeds in at most one committed session more than it failed in sessions that were rolled
   back: only such a double failure queues it twice. And it is made durable at most once more than that
   and than an upsert's own commit kept it in a session that was rolled back or an execution that failed.
   */
  lemma CommitsAreBounded(cfg: Config, s0: State, run: seq<Label>, t: nat)
    requires Initial(s0) && CanRun(cfg, s0, run) && t < |After(cfg, s0, run).lives|
    ensures var log := After(cfg, s0, run).log;
            && Tally(log, Succeeded(t)) <= 1 + Tally(log, With(t, false, RolledBack))
            && Tally(log, MadeDurable(t)) <= 1 + Tally(log, With(t, false, RolledBack)) + Tally(log, DurableAnyway(t))
  {
    ReachableBooks(cfg, s0, run);
    assert BooksOk(After(cfg, s0, run), t);
    DurableIsCounted(After(cfg, s0, run).log, t);
  }
}
