/**
 The queue object refines the state machine: what a worker does with a popped task and with a group
 of its batch, as one uninterrupted piece of the object's code, is a sequence of steps of the machine.
 */
module WriteQueueSteps {
  import opened Prelude
  import opened WriteQueue
  import opened WriteQueueMoves
  import opened WriteQueueObject

  // ----- Popping -----

  /** Popping a task and taking it out of the merge cache are two steps, which together do what the object does. */
  lemma PopIsTwoSteps(cfg: Config, s: State, w: nat, t: nat)
    requires Enabled(cfg, s, Pop(w, t))
    ensures CanRun(cfg, s, [Pop(w, t), Uncache(w)])
    ensures var s' := After(cfg, s, [Pop(w, t), Uncache(w)]);
            s'.sh == PopOn(s.sh, t) && s'.workers == s.workers[w := Gathering(s.workers[w].batch + [t], None)]
  {
    var s1 := Apply(cfg, s, Pop(w, t));
    var s2 := Apply(cfg, s1, Uncache(w));
    SameTasks(cfg, s, Pop(w, t));
    SameTasks(cfg, s1, Uncache(w));
    assert s1.workers == s.workers[w := Gathering(s.workers[w].batch, Some(t))];
    assert s2.workers == s.workers[w := Gathering(s.workers[w].batch + [t], None)];
    assert s2.sh == PopOn(s.sh, t);
    RunOne(cfg, s1, Uncache(w), []);
    RunOne(cfg, s, Pop(w, t), [Uncache(w)]);
    assert [Uncache(w)] + [] == [Uncache(w)] && [Pop(w, t)] + [Uncache(w)] == [Pop(w, t), Uncache(w)];
  }

  lemma SameTasks(cfg: Config, s: State, l: Label)
    requires |s.lives| == |s.sh.tasks|
    requires !l.Create? && !l.Merge? && !l.Execute? && !l.Retry?
    ensures TasksAfter(cfg, s, l) == s.sh.tasks && |LivesAfter(cfg, s, l)| == |s.lives|
  {
  }

  // ----- One group -----

  function Retries(w: nat, n: nat): seq<Label> {
    if n == 0 then [] else [Retry(w)] + Retries(w, n - 1)
  }

  function Executions(w: nat, oks: seq<bool>): seq<Label> {
    if oks == [] then [] else [Execute(w, oks[0], Straight)] + Executions(w, oks[1..])
  }

  /** The steps of worker `w` on its next group, given what the database does. */
  function GroupSteps(w: nat, registered: bool, o: Outcome): seq<Label> {
    if !registered then [Reject(w)]
    else if !o.opens then [Open(w, false)] + Retries(w, |o.oks|)
    else [Open(w, true)] + (Executions(w, o.oks) + ([Commit(w, o.commits)] + if o.commits then [] else Retries(w, |o.oks|)))
  }

  /** After `run` from `s` the shared part is `sh`, worker `w` is at `at`, and the other workers stand where they stood. */
  ghost predicate Reaches(cfg: Config, s: State, run: seq<Label>, w: nat, sh: Shared, at: Worker) {
    && CanRun(cfg, s, run) && w < |s.workers|
    && var s' := After(cfg, s, run);
       s'.sh == sh && s'.workers == s.workers[w := at] && |s'.lives| == |s'.sh.tasks|
  }

  lemma ReachesFirst(cfg: Config, s: State, l: Label, rest: seq<Label>, w: nat, sh: Shared, at: Worker)
    requires Enabled(cfg, s, l) && IsWorkerStep(l) && l.w == w < |s.workers|
    requires Reaches(cfg, Apply(cfg, s, l), rest, w, sh, at)
    ensures Reaches(cfg, s, [l] + rest, w, sh, at)
  {
    RunOne(cfg, s, l, rest);
    LaterUpdateCounts(s.workers, w, WorkerAfter(s, l), at);
  }

  lemma {:induction false} ReachesBoth(cfg: Config, s: State, first: seq<Label>, second: seq<Label>, w: nat,
                                       sh1: Shared, at1: Worker, sh2: Shared, at2: Worker)
    requires Reaches(cfg, s, first, w, sh1, at1)
    requires Reaches(cfg, After(cfg, s, first), second, w, sh2, at2)
    ensures Reaches(cfg, s, first + second, w, sh2, at2)
  {
    RunInTwo(cfg, s, first, second);
    LaterUpdateCounts(s.workers, w, at1, at2);
  }

  lemma LaterUpdateCounts(ws: seq<Worker>, w: nat, a: Worker, b: Worker)
    requires w < |ws|
    ensures ws[w := a][w := b] == ws[w := b]
  {
  }

  lemma {:induction false} RunInTwo(cfg: Config, s: State, first: seq<Label>, second: seq<Label>)
    requires CanRun(cfg, s, first) && CanRun(cfg, After(cfg, s, first), second)
    ensures CanRun(cfg, s, first + second)
    ensures After(cfg, s, first + second) == After(cfg, After(cfg, s, first), second)
    decreases |first|
  {
    if first == [] {
      assert first + second == second;
    } else {
      RunInTwo(cfg, Apply(cfg, s, first[0]), first[1..], second);
      RunOne(cfg, s, first[0], first[1..] + second);
      HeadAndRest(first, second);
    }
  }

  lemma HeadAndRest(first: seq<Label>, second: seq<Label>)
    requires first != []
    ensures [first[0]] + (first[1..] + second) == first + second
  {
  }

  lemma AfterOneRetry(cfg: Config, s: State, w: nat)
    requires |s.lives| == |s.sh.tasks| && AtTask(s, w) && s.workers[w].Retrying?
    ensures var worker, s' := s.workers[w], Apply(cfg, s, Retry(w));
            && s'.sh == FailOn(cfg, s.sh, worker.todo[0]) && |s'.lives| == |s'.sh.tasks| == |s.sh.tasks|
            && s'.workers == s.workers[w := WorkerAfter(s, Retry(w))]
  {
    AttemptsAreSteps(cfg, s, Retry(w));
    TasksGrow(cfg, s, Retry(w));
  }

  /** Retrying a list of tasks one after another. */
  lemma {:induction false} RetriesRun(cfg: Config, s: State, w: nat)
    requires |s.lives| == |s.sh.tasks| && w < |s.workers| && s.workers[w].Retrying? && s.workers[w].todo != []
    requires InRange(s.sh, s.workers[w].todo)
    ensures var worker := s.workers[w];
            Reaches(cfg, s, Retries(w, |worker.todo|), w, FailAll(cfg, s.sh, worker.todo), NextGroup(worker.rest))
    decreases |s.workers[w].todo|
  {
    var worker := s.workers[w];
    var s1 := Apply(cfg, s, Retry(w));
    AfterOneRetry(cfg, s, w);
    if |worker.todo| == 1 {
      assert worker.todo[1..] == [];
      assert Reaches(cfg, s1, [], w, s1.sh, NextGroup(worker.rest));
      ReachesFirst(cfg, s, Retry(w), [], w, s1.sh, NextGroup(worker.rest));
    } else {
      RetriesRun(cfg, s1, w);
      ReachesFirst(cfg, s, Retry(w), Retries(w, |worker.todo| - 1), w, FailAll(cfg, s.sh, worker.todo), NextGroup(worker.rest));
    }
  }

  lemma AfterOneExecution(cfg: Config, s: State, w: nat, ok: bool)
    requires |s.lives| == |s.sh.tasks| && AtTask(s, w) && s.workers[w].InSession?
    ensures var worker, s' := s.workers[w], Apply(cfg, s, Execute(w, ok, Straight));
            && s'.sh == ExecuteOn(cfg, s.sh, worker.todo[0], ok) && |s'.lives| == |s'.sh.tasks| == |s.sh.tasks|
            && s'.workers == s.workers[w := InSession(worker.todo[1..], worker.done + [worker.todo[0]], worker.rest)]
  {
    AttemptsAreSteps(cfg, s, Execute(w, ok, Straight));
    TasksGrow(cfg, s, Execute(w, ok, Straight));
  }

  lemma DoneAndTodo(done: seq<nat>, todo: seq<nat>)
    requires todo != []
    ensures done + [todo[0]] + todo[1..] == done + todo
  {
  }

  /** Executing what a session has left to do, one task after another. */
  lemma {:induction false} ExecutionsRun(cfg: Config, s: State, w: nat, oks: seq<bool>)
    requires |s.lives| == |s.sh.tasks| && w < |s.workers| && s.workers[w].InSession? && |oks| == |s.workers[w].todo|
    requires InRange(s.sh, s.workers[w].todo)
    ensures var worker := s.workers[w];
            Reaches(cfg, s, Executions(w, oks), w, ExecuteAll(cfg, s.sh, worker.todo, oks),
                    InSession([], worker.done + worker.todo, worker.rest))
    decreases |oks|
  {
    var worker := s.workers[w];
    if oks == [] {
      assert worker.done + worker.todo == worker.done;
      assert s.workers[w := worker] == s.workers;
    } else {
      var l := Execute(w, oks[0], Straight);
      var s1 := Apply(cfg, s, l);
      AfterOneExecution(cfg, s, w, oks[0]);
      ExecutionsRun(cfg, s1, w, oks[1..]);
      DoneAndTodo(worker.done, worker.todo);
      ReachesFirst(cfg, s, l, Executions(w, oks[1..]), w, ExecuteAll(cfg, s.sh, worker.todo, oks),
                   InSession([], worker.done + worker.todo, worker.rest));
    }
  }

  /** Committing, and retrying the whole group when the commit fails. */
  lemma CommitRun(cfg: Config, s: State, w: nat, ok: bool)
    requires |s.lives| == |s.sh.tasks| && w < |s.workers| && s.workers[w].InSession? && s.workers[w].todo == []
    requires s.workers[w].done != [] && InRange(s.sh, s.workers[w].done)
    ensures var worker := s.workers[w];
            Reaches(cfg, s, [Commit(w, ok)] + (if ok then [] else Retries(w, |worker.done|)), w,
                    if ok then s.sh else FailAll(cfg, s.sh, worker.done), NextGroup(worker.rest))
  {
    var worker, l := s.workers[w], Commit(w, ok);
    var s1 := Apply(cfg, s, l);
    SameTasks(cfg, s, l);
    assert s1.sh == s.sh;
    if ok {
      assert Reaches(cfg, s1, [], w, s.sh, NextGroup(worker.rest));
      ReachesFirst(cfg, s, l, [], w, s.sh, NextGroup(worker.rest));
    } else {
      RetriesRun(cfg, s1, w);
      ReachesFirst(cfg, s, l, Retries(w, |worker.done|), w, FailAll(cfg, s.sh, worker.done), NextGroup(worker.rest));
    }
  }

  lemma RejectRun(cfg: Config, s: State, w: nat)
    requires |s.lives| == |s.sh.tasks| && AtGroup(s, w) && !Registered(s, w)
    ensures var g, rest := s.workers[w].groups[0], s.workers[w].groups[1..];
            Reaches(cfg, s, [Reject(w)], w, s.sh.(metrics := s.sh.metrics.(failed := s.sh.metrics.failed + |g|)), NextGroup(rest))
  {
    SameTasks(cfg, s, Reject(w));
    var s1 := Apply(cfg, s, Reject(w));
    assert Reaches(cfg, s1, [], w, s1.sh, NextGroup(s.workers[w].groups[1..]));
    ReachesFirst(cfg, s, Reject(w), [], w, s1.sh, NextGroup(s.workers[w].groups[1..]));
  }

  /**
   Refinement. What the object does with one group of a batch, whatever the database does, is what
   the machine reaches by the corresponding steps of that worker, leaving the other workers where they stood.
   */
  lemma GroupIsARun(cfg: Config, s: State, w: nat, o: Outcome)
    requires |s.lives| == |s.sh.tasks| && AtGroup(s, w)
    requires InRange(s.sh, s.workers[w].groups[0]) && |o.oks| == |s.workers[w].groups[0]|
    ensures var groups := s.workers[w].groups;
            Reaches(cfg, s, GroupSteps(w, Registered(s, w), o), w, GroupOn(cfg, s.sh, groups[0], o), NextGroup(groups[1..]))
  {
    var g, rest := s.workers[w].groups[0], s.workers[w].groups[1..];
    if !Registered(s, w) {
      RejectRun(cfg, s, w);
    } else {
      var l := Open(w, o.opens);
      var s1 := Apply(cfg, s, l);
      SameTasks(cfg, s, l);
      assert s1.sh == s.sh;
      if !o.opens {
        RetriesRun(cfg, s1, w);
        ReachesFirst(cfg, s, l, Retries(w, |o.oks|), w, FailAll(cfg, s.sh, g), NextGroup(rest));
      } else {
        SessionRun(cfg, s1, w, o);
        var session := Executions(w, o.oks) + ([Commit(w, o.commits)] + if o.commits then [] else Retries(w, |o.oks|));
        ReachesFirst(cfg, s, l, session, w, GroupOn(cfg, s.sh, g, o), NextGroup(rest));
      }
    }
  }

  lemma SessionRun(cfg: Config, s: State, w: nat, o: Outcome)
    requires |s.lives| == |s.sh.tasks| && w < |s.workers| && s.workers[w].InSession? && s.workers[w].done == []
    requires s.workers[w].todo != [] && InRange(s.sh, s.workers[w].todo) && |o.oks| == |s.workers[w].todo|
    ensures var worker := s.workers[w];
            var executed := ExecuteAll(cfg, s.sh, worker.todo, o.oks);
            Reaches(cfg, s, Executions(w, o.oks) + ([Commit(w, o.commits)] + if o.commits then [] else Retries(w, |o.oks|)), w,
                    if o.commits then executed else FailAll(cfg, executed, worker.todo), NextGroup(worker.rest))
  {
    var worker := s.workers[w];
    var executed := ExecuteAll(cfg, s.sh, worker.todo, o.oks);
    ExecutionsRun(cfg, s, w, o.oks);
    assert worker.done + worker.todo == worker.todo;
    var s1 := After(cfg, s, Executions(w, o.oks));
    CommitRun(cfg, s1, w, o.commits);
    ReachesBoth(cfg, s, Executions(w, o.oks), [Commit(w, o.commits)] + (if o.commits then [] else Retries(w, |o.oks|)), w,
                executed, InSession([], worker.todo, worker.rest),
                if o.commits then executed else FailAll(cfg, executed, worker.todo), NextGroup(worker.rest));
  }
}
