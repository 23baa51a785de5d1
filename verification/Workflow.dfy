/**
 The cloud workflow tasks of app/api/quark.py: one worker coroutine a task, with cancel and create
 requests interleaved at its suspension points.

 A worker suspends wherever it waits for the lock or for a remote call. Cancelling marks its handle;
 a marked worker resumes only by raising at the point where it is suspended. No cancellation finds a
 worker before its first step: that step is scheduled before the creating request gives the new id
 away or lets go of the lock, and the event loop runs what is ready in order.
 */
module Workflow {
  import opened Prelude
  import opened Sorting

  datatype Status = Pending | Running | Completed | Failed | Cancelled

  datatype Task = Task(status: Status, progress: nat, updatedAt: int)

  /** Where a worker is suspended. */
  datatype Point =
    | Start        // scheduled, body not entered
    | ToPreview    // about to record "running"
    | Preview      // waiting for the preview
    | ToPreviewed  // about to record the preview
    | ToExecute    // about to record "executing"
    | Execute      // waiting for the renames
    | ToFinish     // about to record "completed"
    | ToFailed     // handling an error, about to record "failed"
    | ToCancelled  // handling the cancellation, about to record "cancelled"
    | ToRelease    // in the final clause, about to give up its handle
    | Ended
    | Stranded     // cancelled where the final clause does not run: the handle would stay

  datatype Worker = Worker(at: Point, marked: bool, autoExecute: bool)

  datatype State = State(tasks: map<nat, Task>, handles: set<nat>, workers: map<nat, Worker>)

  /** How a suspended call turned out, and whether the preview left anything to run. */
  datatype Outcome = Good | NothingToRun | Error

  datatype Label =
    | Create(id: nat, autoExecute: bool, createdAt: int, keep: set<nat>)
    | Cancel(id: nat, now: int)
    | Resume(id: nat, outcome: Outcome, now: int)

  const MAX_KEEP: nat := 50

  predicate Terminal(status: Status) {
    status.Completed? || status.Failed? || status.Cancelled?
  }

  // ----- Tables -----

  /** An update of a task that is not in the table does nothing. */
  function Record(tasks: map<nat, Task>, id: nat, status: Option<Status>, progress: Option<nat>, now: int): map<nat, Task> {
    if id !in tasks then tasks
    else
      var task := tasks[id];
      tasks[id := Task(if status.Some? then status.value else task.status,
                       if progress.Some? then progress.value else task.progress, now)]
  }

  /** `keep` is a choice of the `MAX_KEEP` most recently updated tasks; ties can go either way. */
  ghost predicate Newest(tasks: map<nat, Task>, keep: set<nat>) {
    && keep <= tasks.Keys && |keep| == MAX_KEEP
    && forall k, o :: k in keep && o in tasks && o !in keep ==> tasks[k].updatedAt >= tasks[o].updatedAt
  }

  /** Tasks that are neither among the newest nor still have a handle are dropped. */
  function Prune(tasks: map<nat, Task>, handles: set<nat>, keep: set<nat>): map<nat, Task> {
    if |tasks| <= MAX_KEEP then tasks
    else map id | id in tasks && (id in keep || id in handles) :: tasks[id]
  }

  // ----- Steps -----

  ghost predicate Enabled(s: State, l: Label) {
    match l
    case Create(id, _, at, keep) =>
      var tasks := s.tasks[id := Task(Pending, 0, at)];
      id !in s.workers && (|tasks| > MAX_KEEP ==> Newest(tasks, keep))
    case Cancel(id, _) => id in s.workers ==> s.workers[id].at != Start
    case Resume(id, _, _) => id in s.workers && s.workers[id].at != Ended && s.workers[id].at != Stranded
  }

  /** Where the raised cancellation takes a worker. */
  function Unwound(at: Point): Point {
    match at
    case Start => Stranded
    case ToCancelled => ToRelease
    case ToFailed => ToRelease
    case ToRelease => Stranded  // raised inside the final clause: the handle stays
    case _ => ToCancelled
  }

  function Next(w: Worker, o: Outcome): Point {
    match w.at
    case Start => ToPreview
    case ToPreview => Preview
    case Preview => if o.Error? then ToFailed else ToPreviewed
    case ToPreviewed => if !w.autoExecute || o.NothingToRun? then ToFinish else if o.Error? then ToFailed else ToExecute
    case ToExecute => if o.Error? then ToFailed else Execute
    case Execute => if o.Error? then ToFailed else ToFinish
    case ToFinish => ToRelease
    case ToFailed => ToRelease
    case ToCancelled => ToRelease
    case _ => Ended
  }

  /** What a worker records when it resumes normally. */
  function Recorded(tasks: map<nat, Task>, id: nat, at: Point, now: int): map<nat, Task> {
    match at
    case ToPreview => Record(tasks, id, Some(Running), Some(5), now)
    case ToPreviewed => Record(tasks, id, None, Some(60), now)
    case ToExecute => Record(tasks, id, None, Some(70), now)
    case ToFinish => Record(tasks, id, Some(Completed), Some(100), now)
    case ToFailed => Record(tasks, id, Some(Failed), None, now)
    case ToCancelled => Record(tasks, id, Some(Cancelled), None, now)
    case _ => tasks
  }

  function ApplyCreate(s: State, l: Label): State
    requires l.Create?
  {
    State(Prune(s.tasks[l.id := Task(Pending, 0, l.createdAt)], s.handles, l.keep),
          s.handles + {l.id}, s.workers[l.id := Worker(Start, false, l.autoExecute)])
  }

  /** Cancelling a task that has a final status changes nothing. */
  function ApplyCancel(s: State, id: nat, now: int): State {
    if id !in s.tasks || Terminal(s.tasks[id].status) then s
    else
      State(Record(s.tasks, id, Some(Cancelled), None, now), s.handles,
            if id in s.handles && id in s.workers && s.workers[id].at != Ended && s.workers[id].at != Stranded
            then s.workers[id := s.workers[id].(marked := true)] else s.workers)
  }

  function ApplyResume(s: State, id: nat, o: Outcome, now: int): State
    requires id in s.workers
  {
    var w := s.workers[id];
    if w.marked then s.(workers := s.workers[id := w.(at := Unwound(w.at), marked := false)])
    else
      State(Recorded(s.tasks, id, w.at, now), if w.at == ToRelease then s.handles - {id} else s.handles,
            s.workers[id := w.(at := Next(w, o))])
  }

  function Apply(s: State, l: Label): State
    requires l.Resume? ==> l.id in s.workers
  {
    match l
    case Create(_, _, _, _) => ApplyCreate(s, l)
    case Cancel(id, now) => ApplyCancel(s, id, now)
    case Resume(id, o, now) => ApplyResume(s, id, o, now)
  }

  // ----- The invariant -----

  /** The statuses and progress values that go with each suspension point. */
  predicate Consistent(task: Task, w: Worker) {
    && (task.status.Completed? <==> task.progress == 100)
    && task.progress <= 100
    && match w.at
       case Start => task.status.Pending? && task.progress == 0
       case ToPreview => !task.status.Running? && !task.status.Failed? && task.progress == 0
       case Preview => (task.status.Running? || task.status.Cancelled?) && task.progress == 5
       case ToPreviewed => (task.status.Running? || task.status.Cancelled?) && task.progress == 5
       case ToExecute => (task.status.Running? || task.status.Cancelled?) && task.progress == 60
       case Execute => (task.status.Running? || task.status.Cancelled?) && task.progress == 70
       case ToFinish => (task.status.Running? || task.status.Cancelled?) && task.progress <= 70
       case ToFailed => task.status.Running? || task.status.Cancelled?
       case ToCancelled => task.status.Cancelled?
       case _ => Terminal(task.status)
  }

  predicate Unwinding(at: Point) {
    at.ToCancelled? || at.ToRelease? || at.Ended? || at.Stranded?
  }

  /** A cancelled task's worker is marked, or has already been unwound; a marked worker's task is cancelled. */
  predicate IdOk(s: State, id: nat) {
    && (id in s.tasks ==> id in s.workers && Consistent(s.tasks[id], s.workers[id]))
    && (id in s.workers ==>
          var w := s.workers[id];
          && w.at != Stranded && (w.at == Start ==> !w.marked)
          && (id in s.handles <==> w.at != Ended)
          && (w.marked ==> !Unwinding(w.at) && (id in s.tasks ==> s.tasks[id].status.Cancelled?))
          && (id in s.tasks && s.tasks[id].status.Cancelled? && !Unwinding(w.at) ==> w.marked))
    && (id in s.handles ==> id in s.workers)
  }

  ghost predicate Inv(s: State) {
    forall id :: IdOk(s, id)
  }

  lemma CreateKeepsIdOk(s: State, l: Label, id: nat)
    requires Enabled(s, l) && l.Create? && IdOk(s, id)
    ensures IdOk(ApplyCreate(s, l), id)
  {
  }

  lemma ResumeKeepsIdOk(s: State, l: Label, id: nat)
    requires Enabled(s, l) && l.Resume? && IdOk(s, id)
    ensures IdOk(Apply(s, l), id)
  {
  }

  lemma StepKeepsInv(s: State, l: Label)
    requires Inv(s) && Enabled(s, l)
    ensures Inv(Apply(s, l))
  {
    forall id ensures IdOk(Apply(s, l), id) {
      assert IdOk(s, id);
      if l.Create? {
        CreateKeepsIdOk(s, l, id);
      } else if l.Resume? {
        ResumeKeepsIdOk(s, l, id);
      }
    }
  }

  // ----- Runs -----

  const EMPTY := State(map[], {}, map[])

  ghost predicate CanRun(s: State, run: seq<Label>)
    decreases |run|
  {
    run == [] || (Enabled(s, run[0]) && CanRun(Apply(s, run[0]), run[1..]))
  }

  ghost function After(s: State, run: seq<Label>): State
    requires CanRun(s, run)
    decreases |run|
  {
    if run == [] then s else After(Apply(s, run[0]), run[1..])
  }

  lemma {:induction false} RunKeepsInv(s: State, run: seq<Label>)
    requires Inv(s) && CanRun(s, run)
    ensures Inv(After(s, run))
    decreases |run|
  {
    if run != [] {
      StepKeepsInv(s, run[0]);
      RunKeepsInv(Apply(s, run[0]), run[1..]);
    }
  }

  /** How far along a status is. */
  function Rank(status: Status): nat {
    if status.Pending? then 0 else if status.Running? then 1 else 2
  }

  /** A task moved on legally: no step back, no way out of a final status, no loss of progress. */
  predicate MovedOn(before: Task, after: Task) {
    && Rank(before.status) <= Rank(after.status)
    && (Terminal(before.status) ==> after.status == before.status)
    && before.progress <= after.progress
  }

  lemma StepMovesOn(s: State, l: Label, id: nat)
    requires Enabled(s, l) && IdOk(s, id) && id in s.tasks && id in Apply(s, l).tasks
    ensures MovedOn(s.tasks[id], Apply(s, l).tasks[id])
  {
  }

  lemma GoneStaysGone(s: State, l: Label, id: nat)
    requires Enabled(s, l) && id in s.workers && id !in s.tasks
    ensures id in Apply(s, l).workers && id !in Apply(s, l).tasks
  {
  }

  lemma {:induction false} RunStaysGone(s: State, run: seq<Label>, id: nat)
    requires CanRun(s, run) && id in s.workers && id !in s.tasks
    ensures id !in After(s, run).tasks
    decreases |run|
  {
    if run != [] {
      GoneStaysGone(s, run[0], id);
      RunStaysGone(Apply(s, run[0]), run[1..], id);
    }
  }

  /**
   Terminal statuses are absorbing. However workers, cancellations and creations interleave, a task that
   is still in the table has never left a final status, never gone back, and never lost progress.
   */
  lemma {:induction false} TerminalIsAbsorbing(s: State, run: seq<Label>, id: nat)
    requires Inv(s) && CanRun(s, run)
    requires id in s.tasks && id in After(s, run).tasks
    ensures MovedOn(s.tasks[id], After(s, run).tasks[id])
    decreases |run|
  {
    if run != [] {
      var s1 := Apply(s, run[0]);
      assert IdOk(s, id);
      StepKeepsInv(s, run[0]);
      if id !in s1.tasks {
        assert id in s1.workers;
        RunStaysGone(s1, run[1..], id);
      } else {
        StepMovesOn(s, run[0], id);
        TerminalIsAbsorbing(s1, run[1..], id);
      }
    }
  }

  /** From the empty tables every state satisfies the invariant that the theorems above start from. */
  lemma ReachableInv(run: seq<Label>)
    requires CanRun(EMPTY, run)
    ensures Inv(After(EMPTY, run))
  {
    forall id ensures IdOk(EMPTY, id) {}
    RunKeepsInv(EMPTY, run);
  }

  /** A worker that is over left its task, if still listed, in a final status, and completed means 100%. */
  lemma EndedIsFinal(run: seq<Label>, id: nat)
    requires CanRun(EMPTY, run)
    requires var s := After(EMPTY, run);
             id in s.tasks && id in s.workers && s.workers[id].at == Ended
    ensures var task := After(EMPTY, run).tasks[id];
            Terminal(task.status) && (task.status.Completed? <==> task.progress == 100)
  {
    ReachableInv(run);
    assert IdOk(After(EMPTY, run), id);
  }

  // ----- After a cancellation -----

  /** The worker will be unwound when it resumes, or is being unwound. */
  predicate Doomed(w: Worker) {
    w.marked || Unwinding(w.at)
  }

  lemma DoomedStep(s: State, l: Label, id: nat)
    requires Inv(s) && Enabled(s, l) && id in s.workers && Doomed(s.workers[id])
    ensures id in Apply(s, l).workers && Doomed(Apply(s, l).workers[id])
    ensures if l.Resume? && l.id == id then Unwinding(Apply(s, l).workers[id].at)
            else Apply(s, l).workers[id].at == s.workers[id].at
  {
    assert IdOk(s, id);
  }

  lemma {:induction false} DoomedRun(s: State, run: seq<Label>, id: nat)
    requires Inv(s) && CanRun(s, run) && id in s.workers && Doomed(s.workers[id])
    ensures id in After(s, run).workers
    ensures Unwinding(After(s, run).workers[id].at)
            || (Resumes(run, id) == 0 && After(s, run).workers[id].at == s.workers[id].at)
    decreases |run|
  {
    if run != [] {
      StepKeepsInv(s, run[0]);
      DoomedStep(s, run[0], id);
      DoomedRun(Apply(s, run[0]), run[1..], id);
    }
  }

  /**
   Once a task is cancelled its worker starts no renames: whatever runs after that, even when the task has
   been pruned from the table, the worker waits for renames only if it was doing so and has not resumed since.
   */
  lemma NoRenamesAfterCancel(s: State, run: seq<Label>, id: nat)
    requires Inv(s) && CanRun(s, run) && id in s.tasks && s.tasks[id].status.Cancelled?
    ensures id in s.workers && id in After(s, run).workers
    ensures After(s, run).workers[id].at.Execute? ==> s.workers[id].at.Execute? && Resumes(run, id) == 0
  {
    assert IdOk(s, id);
    DoomedRun(s, run, id);
  }

  /** A cancellation of a task that is not final is final itself: in every continuation the task, while listed, is cancelled. */
  lemma CancelIsFinal(s: State, id: nat, now: int, run: seq<Label>)
    requires Inv(s) && Enabled(s, Cancel(id, now)) && id in s.tasks
    requires s.tasks[id].status == Pending || s.tasks[id].status == Running
    requires CanRun(Apply(s, Cancel(id, now)), run)
    ensures var after := After(Apply(s, Cancel(id, now)), run);
            id in after.tasks ==> after.tasks[id].status == Cancelled
  {
    var s1 := Apply(s, Cancel(id, now));
    StepKeepsInv(s, Cancel(id, now));
    if id in After(s1, run).tasks {
      TerminalIsAbsorbing(s1, run, id);
    }
  }

  /**
   A worker that is to be unwound records the cancellation once more, at its second resumption, before it gives up
   its handle; one that was about to record a failure records nothing any more.
   */
  lemma CancellationIsRecorded(s: State, id: nat, o: Outcome, now: int, p: Outcome, later: int)
    requires Inv(s) && id in s.workers && s.workers[id].marked
    ensures var first := ApplyResume(s, id, o, now);
            && id in first.workers && first.tasks == s.tasks && id in first.handles
            && if s.workers[id].at.ToFailed? then first.workers[id].at.ToRelease?
               else
                 var second := ApplyResume(first, id, p, later);
                 && second.workers[id].at.ToRelease? && id in second.handles
                 && second.tasks == if id in s.tasks then s.tasks[id := s.tasks[id].(updatedAt := later)] else s.tasks
  {
    assert IdOk(s, id);
  }

  // ----- How a task ends -----

  function Turned(l: Label, id: nat): seq<Outcome> {
    if l.Resume? && l.id == id then [l.outcome] else []
  }

  /** How the resumptions of one worker turned out, in order. */
  function Outcomes(run: seq<Label>, id: nat): seq<Outcome> {
    if run == [] then [] else Turned(run[0], id) + Outcomes(run[1..], id)
  }

  lemma OneMoreOutcome(os: seq<Outcome>, run: seq<Label>, id: nat)
    requires run != []
    ensures os + Outcomes(run, id) == (os + Turned(run[0], id)) + Outcomes(run[1..], id)
  {
  }

  /** Whether the request that created the task asked for the renames to be made. */
  predicate AsksForRenames(run: seq<Label>, id: nat) {
    run != [] && if run[0].Create? && run[0].id == id then run[0].autoExecute else AsksForRenames(run[1..], id)
  }

  predicate NoCancel(run: seq<Label>, id: nat) {
    forall i :: 0 <= i < |run| ==> !(run[i].Cancel? && run[i].id == id)
  }

  /** The first two resumptions wait for nothing that can fail; the third is the end of the preview. */
  predicate PreviewFails(os: seq<Outcome>) {
    |os| > 2 && os[2].Error?
  }

  /** The renames are asked for and the preview has left some to make. */
  predicate HasRenames(auto: bool, os: seq<Outcome>) {
    auto && |os| > 3 && !os[2].Error? && os[3].Good?
  }

  /** Listing the renames, asking for them, or making them has failed. */
  predicate RenamesFail(auto: bool, os: seq<Outcome>) {
    auto && !PreviewFails(os)
    && ((|os| > 3 && os[3].Error?) || (HasRenames(auto, os) && ((|os| > 4 && os[4].Error?) || (|os| > 5 && os[5].Error?))))
  }

  predicate Fails(auto: bool, os: seq<Outcome>) {
    PreviewFails(os) || RenamesFail(auto, os)
  }

  /** What has happened to a worker that waits here and was never cancelled. */
  predicate Arrived(at: Point, auto: bool, os: seq<Outcome>) {
    match at
    case Start => |os| == 0
    case ToPreview => |os| == 1
    case Preview => |os| == 2
    case ToPreviewed => |os| == 3 && !Fails(auto, os)
    case ToExecute => |os| == 4 && !Fails(auto, os) && HasRenames(auto, os)
    case Execute => |os| == 5 && !Fails(auto, os) && HasRenames(auto, os)
    case ToFinish => !Fails(auto, os) && (|os| == 6 || (|os| == 4 && !HasRenames(auto, os)))
    case ToFailed => |os| > 2 && Fails(auto, os)
    case ToRelease => |os| > 3
    case Ended => |os| > 4
    case _ => false
  }

  /** With its task: a worker that is past recording the end has recorded what its calls came to. */
  predicate EndsAsItWent(s: State, id: nat, auto: bool, os: seq<Outcome>)
    requires id in s.workers
  {
    var w := s.workers[id];
    && !w.marked && w.autoExecute == auto && Arrived(w.at, auto, os)
    && (w.at.ToRelease? || w.at.Ended? ==>
          && (!Fails(auto, os) ==> |os| > 6 || !HasRenames(auto, os))
          && (id in s.tasks ==> s.tasks[id].status == if Fails(auto, os) then Failed else Completed))
  }

  lemma LaterOutcomesDecideNothing(auto: bool, os: seq<Outcome>, o: Outcome)
    requires Fails(auto, os) || |os| > 5 || (|os| > 3 && !HasRenames(auto, os))
    ensures Fails(auto, os + [o]) == Fails(auto, os) && HasRenames(auto, os + [o]) == HasRenames(auto, os)
  {
  }

  lemma ResumeEndsAsItWent(s: State, id: nat, o: Outcome, now: int, auto: bool, os: seq<Outcome>)
    requires Enabled(s, Resume(id, o, now)) && IdOk(s, id) && EndsAsItWent(s, id, auto, os)
    ensures EndsAsItWent(ApplyResume(s, id, o, now), id, auto, os + [o])
  {
    var w := s.workers[id];
    if w.at.ToFinish? || w.at.ToFailed? || w.at.ToRelease? {
      LaterOutcomesDecideNothing(auto, os, o);
    }
  }

  /** In any run, also one that cancels the task: what has happened to a worker that is not being unwound. */
  predicate CameHere(s: State, id: nat, auto: bool, os: seq<Outcome>)
    requires id in s.workers
  {
    s.workers[id].autoExecute == auto && (!Unwinding(s.workers[id].at) ==> Arrived(s.workers[id].at, auto, os))
  }

  lemma ResumeCameHere(s: State, l: Label, id: nat, auto: bool, os: seq<Outcome>)
    requires Enabled(s, l) && l.Resume? && l.id == id && IdOk(s, id) && CameHere(s, id, auto, os)
    ensures CameHere(Apply(s, l), id, auto, os + [l.outcome])
  {
  }

  lemma OtherStepCameHere(s: State, l: Label, id: nat, auto: bool, os: seq<Outcome>)
    requires Enabled(s, l) && IdOk(s, id) && id in s.workers && CameHere(s, id, auto, os)
    requires !(l.Resume? && l.id == id)
    ensures id in Apply(s, l).workers && CameHere(Apply(s, l), id, auto, os)
  {
  }

  lemma StepCameHere(s: State, l: Label, id: nat, auto: bool, os: seq<Outcome>)
    requires Enabled(s, l) && IdOk(s, id) && id in s.workers && CameHere(s, id, auto, os)
    ensures id in Apply(s, l).workers && CameHere(Apply(s, l), id, auto, os + Turned(l, id))
  {
    if l.Resume? && l.id == id {
      ResumeCameHere(s, l, id, auto, os);
    } else {
      OtherStepCameHere(s, l, id, auto, os);
      assert os + [] == os;
    }
  }

  lemma {:induction false} RunCameHere(s: State, run: seq<Label>, id: nat, auto: bool, os: seq<Outcome>, all: seq<Outcome>)
    requires Inv(s) && CanRun(s, run) && id in s.workers && CameHere(s, id, auto, os) && all == os + Outcomes(run, id)
    ensures id in After(s, run).workers && CameHere(After(s, run), id, auto, all)
    decreases |run|
  {
    if run != [] {
      assert IdOk(s, id);
      StepKeepsInv(s, run[0]);
      StepCameHere(s, run[0], id, auto, os);
      OneMoreOutcome(os, run, id);
      RunCameHere(Apply(s, run[0]), run[1..], id, auto, os + Turned(run[0], id), all);
    } else {
      assert all == os;
    }
  }

  lemma {:induction false} CameHereFromStart(s: State, run: seq<Label>, id: nat)
    requires Inv(s) && CanRun(s, run) && id !in s.workers && id in After(s, run).workers
    ensures CameHere(After(s, run), id, AsksForRenames(run, id), Outcomes(run, id))
    decreases |run|
  {
    var s1 := Apply(s, run[0]);
    StepKeepsInv(s, run[0]);
    assert [] + Outcomes(run[1..], id) == Outcomes(run[1..], id);
    if id in s1.workers {
      RunCameHere(s1, run[1..], id, run[0].autoExecute, [], Outcomes(run, id));
    } else {
      CameHereFromStart(s1, run[1..], id);
    }
  }

  /**
   Renames are made only where they are wanted. In every interleaving, a worker that waits for its renames
   was asked for them when it was created, its preview succeeded, and there was something to rename.
   */
  lemma ExecutesOnlyIfAsked(run: seq<Label>, id: nat)
    requires CanRun(EMPTY, run)
    requires var s := After(EMPTY, run); id in s.workers && s.workers[id].at.Execute?
    ensures AsksForRenames(run, id)
    ensures var os := Outcomes(run, id); |os| == 5 && !os[2].Error? && os[3].Good? && !os[4].Error?
  {
    forall i ensures IdOk(EMPTY, i) {}
    CameHereFromStart(EMPTY, run, id);
  }

  lemma OtherStepEndsAsItWent(s: State, l: Label, id: nat, auto: bool, os: seq<Outcome>)
    requires Enabled(s, l) && IdOk(s, id) && id in s.workers && l.id != id && EndsAsItWent(s, id, auto, os)
    ensures id in Apply(s, l).workers && EndsAsItWent(Apply(s, l), id, auto, os)
  {
  }

  lemma StepEndsAsItWent(s: State, l: Label, id: nat, auto: bool, os: seq<Outcome>)
    requires Enabled(s, l) && IdOk(s, id) && id in s.workers && EndsAsItWent(s, id, auto, os) && !(l.Cancel? && l.id == id)
    ensures id in Apply(s, l).workers && EndsAsItWent(Apply(s, l), id, auto, os + Turned(l, id))
  {
    if l.id == id {
      ResumeEndsAsItWent(s, id, l.outcome, l.now, auto, os);
    } else {
      OtherStepEndsAsItWent(s, l, id, auto, os);
      assert os + [] == os;
    }
  }

  lemma NoCancelLater(run: seq<Label>, id: nat)
    requires run != [] && NoCancel(run, id)
    ensures NoCancel(run[1..], id) && !(run[0].Cancel? && run[0].id == id)
  {
  }

  lemma {:induction false} RunEndsAsItWent(s: State, run: seq<Label>, id: nat, auto: bool, os: seq<Outcome>, all: seq<Outcome>)
    requires Inv(s) && CanRun(s, run) && id in s.workers && NoCancel(run, id) && EndsAsItWent(s, id, auto, os)
    requires all == os + Outcomes(run, id)
    ensures id in After(s, run).workers && EndsAsItWent(After(s, run), id, auto, all)
    decreases |run|
  {
    if run != [] {
      assert IdOk(s, id);
      NoCancelLater(run, id);
      StepKeepsInv(s, run[0]);
      StepEndsAsItWent(s, run[0], id, auto, os);
      OneMoreOutcome(os, run, id);
      RunEndsAsItWent(Apply(s, run[0]), run[1..], id, auto, os + Turned(run[0], id), all);
    } else {
      assert all == os;
    }
  }

  lemma {:induction false} EndsAsItWentFromStart(s: State, run: seq<Label>, id: nat)
    requires Inv(s) && CanRun(s, run) && NoCancel(run, id) && id !in s.workers && id in After(s, run).workers
    ensures EndsAsItWent(After(s, run), id, AsksForRenames(run, id), Outcomes(run, id))
    decreases |run|
  {
    var s1 := Apply(s, run[0]);
    StepKeepsInv(s, run[0]);
    assert [] + Outcomes(run[1..], id) == Outcomes(run[1..], id);
    if id in s1.workers {
      RunEndsAsItWent(s1, run[1..], id, run[0].autoExecute, [], Outcomes(run, id));
    } else {
      EndsAsItWentFromStart(s1, run[1..], id);
    }
  }

  /**
   The final status tells how the calls went. In every interleaving that does not cancel the task, the task of
   a worker that is over, if still listed, is failed when the preview failed, or when renames were wanted and
   listing them, asking for them or making them failed; in every other case it is completed.
   */
  lemma StatusTellsOutcome(run: seq<Label>, id: nat)
    requires CanRun(EMPTY, run) && NoCancel(run, id)
    requires var s := After(EMPTY, run); id in s.workers && s.workers[id].at.Ended?
    ensures var os, auto := Outcomes(run, id), AsksForRenames(run, id);
            && |os| > 4
            && (id in After(EMPTY, run).tasks ==>
                  After(EMPTY, run).tasks[id].status ==
                  if || os[2].Error?
                     || (auto && os[3].Error?)
                     || (auto && os[3].Good? && (os[4].Error? || (|os| > 5 && os[5].Error?)))
                  then Failed else Completed)
  {
    forall i ensures IdOk(EMPTY, i) {}
    EndsAsItWentFromStart(EMPTY, run, id);
  }

  // ----- Workers end -----

  /** How often a worker resumes in a run. */
  function Resumes(run: seq<Label>, id: nat): nat {
    if run == [] then 0 else (if run[0].Resume? && run[0].id == id then 1 else 0) + Resumes(run[1..], id)
  }

  /** How often a worker that waits here can still resume. */
  function Left(at: Point): nat {
    match at
    case Start => MAX_RESUMES
    case ToPreview => 8
    case Preview => 7
    case ToPreviewed => 6
    case ToExecute => 5
    case Execute => 4
    case ToFinish => 3
    case ToFailed => 2
    case ToCancelled => 2
    case ToRelease => 1
    case _ => 0
  }

  const MAX_RESUMES: nat := 9

  /** What is left for a worker, or for one that is still to come. */
  function LeftFor(s: State, id: nat): nat {
    if id in s.workers then Left(s.workers[id].at) else MAX_RESUMES
  }

  lemma StepTakesFromLeft(s: State, l: Label, id: nat)
    requires Inv(s) && Enabled(s, l)
    ensures LeftFor(Apply(s, l), id) + Resumes([l], id) <= LeftFor(s, id)
  {
    assert IdOk(s, id);
    assert [l][1..] == [];
  }

  lemma {:induction false} ResumptionsAreBounded(s: State, run: seq<Label>, id: nat)
    requires Inv(s) && CanRun(s, run)
    ensures LeftFor(After(s, run), id) + Resumes(run, id) <= LeftFor(s, id)
    decreases |run|
  {
    if run != [] {
      StepKeepsInv(s, run[0]);
      StepTakesFromLeft(s, run[0], id);
      assert [run[0]][1..] == [];
      ResumptionsAreBounded(Apply(s, run[0]), run[1..], id);
    }
  }

  /**
   Every worker ends: whatever others do, it resumes at most nine times, and until it has ended it can
   resume, whether a remote call went well or not; after nine resumptions it has ended.
   */
  lemma WorkersEnd(run: seq<Label>, id: nat, o: Outcome, now: int)
    requires CanRun(EMPTY, run)
    ensures Resumes(run, id) <= MAX_RESUMES
    ensures var s := After(EMPTY, run);
            id in s.workers ==>
              && (s.workers[id].at.Ended? <==> !Enabled(s, Resume(id, o, now)))
              && (Resumes(run, id) == MAX_RESUMES ==> s.workers[id].at.Ended?)
  {
    var s := After(EMPTY, run);
    ReachableInv(run);
    assert IdOk(s, id);
    forall i ensures IdOk(EMPTY, i) {}
    ResumptionsAreBounded(EMPTY, run, id);
  }

  // ----- Handles -----

  /**
   No handle leaks. In every interleaving of workers, cancellations and creations, a worker's handle
   stays in the table exactly until the worker is over, and no cancellation keeps it from releasing it.
   */
  lemma EveryHandleIsReleased(run: seq<Label>, id: nat)
    requires CanRun(EMPTY, run)
    ensures var s := After(EMPTY, run);
            && (id in s.handles <==> id in s.workers && s.workers[id].at != Ended)
            && (id in s.workers ==> s.workers[id].at != Stranded)
  {
    ReachableInv(run);
    assert IdOk(After(EMPTY, run), id);
  }

  // ----- Pruning -----

  /** The ids of the tasks, newest first; equally new ones in the order of the table. */
  function NewestFirst(tasks: map<nat, Task>, order: seq<nat>): seq<nat> {
    SortBy(Age(tasks), order)
  }

  function Age(tasks: map<nat, Task>): nat -> seq<int> {
    (id: nat) => if id in tasks then [-tasks[id].updatedAt] else []
  }

  function FirstOf(ids: seq<nat>, n: nat): set<nat> {
    Members(if |ids| > n then ids[..n] else ids)
  }

  function KeptIds(tasks: map<nat, Task>, order: seq<nat>): set<nat> {
    FirstOf(NewestFirst(tasks, order), MAX_KEEP)
  }

  /** `order` lists the ids of the table once each. */
  ghost predicate Lists(order: seq<nat>, tasks: map<nat, Task>) {
    NoRepeats(order) && forall id :: id in order <==> id in tasks
  }

  lemma ListSize(order: seq<nat>, tasks: map<nat, Task>)
    requires Lists(order, tasks)
    ensures |order| == |tasks|
  {
    NoRepeatsSize(order);
    assert Members(order) == tasks.Keys;
    assert |tasks| == |tasks.Keys|;
  }

  lemma {:induction false} CountsOnce(s: seq<nat>)
    requires forall x :: multiset(s)[x] <= 1
    ensures NoRepeats(s)
  {
    forall i, j | 0 <= i < j < |s| ensures s[i] != s[j] {
      assert s == s[..j] + s[j..] && s[i] in s[..j] && s[j] in s[j..];
      assert multiset(s)[s[j]] == multiset(s[..j])[s[j]] + multiset(s[j..])[s[j]];
    }
  }

  lemma NewestFirstIsSorted(tasks: map<nat, Task>, order: seq<nat>)
    requires Lists(order, tasks)
    ensures var ids := NewestFirst(tasks, order);
            && Lists(ids, tasks) && |ids| == |order|
            && forall i, j :: 0 <= i < j < |ids| && ids[i] in tasks && ids[j] in tasks ==>
                 tasks[ids[i]].updatedAt >= tasks[ids[j]].updatedAt
  {
    var ids := NewestFirst(tasks, order);
    SortBySorts(Age(tasks), order);
    forall x ensures multiset(ids)[x] <= 1 && (x in ids <==> x in order) {
      NoRepeatsCount(order, x);
      assert x in ids <==> x in multiset(ids);
    }
    CountsOnce(ids);
    assert |multiset(ids)| == |ids| && |multiset(order)| == |order|;
    forall i, j | 0 <= i < j < |ids| && ids[i] in tasks && ids[j] in tasks
      ensures tasks[ids[i]].updatedAt >= tasks[ids[j]].updatedAt
    {
      assert LexLe(Age(tasks)(ids[i]), Age(tasks)(ids[j]));
    }
  }

  /** What the sort selects are `MAX_KEEP` newest tasks. */
  lemma KeptAreNewest(tasks: map<nat, Task>, order: seq<nat>)
    requires Lists(order, tasks) && |tasks| > MAX_KEEP
    ensures Newest(tasks, KeptIds(tasks, order))
  {
    var ids := NewestFirst(tasks, order);
    NewestFirstIsSorted(tasks, order);
    ListSize(order, tasks);
    var first := ids[..MAX_KEEP];
    assert KeptIds(tasks, order) == Members(first);
    assert forall i :: 0 <= i < MAX_KEEP ==> ids[i] in first;
    NoRepeatsSize(first);
    forall k, o | k in first && o in tasks && o !in first ensures tasks[k].updatedAt >= tasks[o].updatedAt {
      var i :| 0 <= i < MAX_KEEP && ids[i] == k;
      assert o in ids;
      var j :| 0 <= j < |ids| && ids[j] == o;
    }
    assert forall k :: k in first ==> k in ids;
  }

  /** The tasks other than `id` that are at least as new. */
  function AtLeastAsNew(tasks: map<nat, Task>, id: nat): set<nat>
    requires id in tasks
  {
    set k | k in tasks && k != id && tasks[k].updatedAt >= tasks[id].updatedAt
  }

  /**
   Creating a task leaves at most fifty tasks besides those with a handle, and drops no task that has
   one, nor any that fewer than fifty others are as new as.
   */
  lemma CreateBoundsTable(s: State, l: Label)
    requires Enabled(s, l) && l.Create?
    ensures |Apply(s, l).tasks| <= 50 + |s.handles|
    ensures forall id :: id in s.tasks && id in s.handles && id != l.id ==> id in Apply(s, l).tasks
    ensures var tasks := s.tasks[l.id := Task(Pending, 0, l.createdAt)];
            forall id :: id in tasks && id !in Apply(s, l).tasks ==> |AtLeastAsNew(tasks, id)| >= 50
  {
    var tasks := s.tasks[l.id := Task(Pending, 0, l.createdAt)];
    if |tasks| > MAX_KEEP {
      var kept := Prune(tasks, s.handles, l.keep);
      assert kept.Keys <= l.keep + s.handles;
      SubsetSize(kept.Keys, l.keep + s.handles);
      assert |kept| == |kept.Keys|;
      forall id | id in tasks && id !in kept ensures |AtLeastAsNew(tasks, id)| >= MAX_KEEP {
        SubsetSize(l.keep, AtLeastAsNew(tasks, id));
      }
    }
  }

  // ----- The tables, updated in place -----

  function IsNot(id: nat): nat -> bool {
    (x: nat) => x != id
  }

  /** The table when the ids `done` have been looked at. */
  function PrunedFirst(tasks: map<nat, Task>, handles: set<nat>, keep: set<nat>, done: seq<nat>): map<nat, Task> {
    map id | id in tasks && (id !in done || id in keep || id in handles) :: tasks[id]
  }

  lemma PruneOneMore(tasks: map<nat, Task>, handles: set<nat>, keep: set<nat>, done: seq<nat>, id: nat)
    ensures PrunedFirst(tasks, handles, keep, done + [id])
            == if id !in keep && id !in handles then PrunedFirst(tasks, handles, keep, done) - {id}
               else PrunedFirst(tasks, handles, keep, done)
  {
  }

  lemma NoneLookedAt(tasks: map<nat, Task>, handles: set<nat>, keep: set<nat>)
    ensures PrunedFirst(tasks, handles, keep, []) == tasks
  {
  }

  lemma AllLookedAt(tasks: map<nat, Task>, handles: set<nat>, keep: set<nat>, ids: seq<nat>)
    requires Lists(ids, tasks) && |tasks| > MAX_KEEP
    ensures PrunedFirst(tasks, handles, keep, ids) == Prune(tasks, handles, keep)
  {
  }

  class Tables {
    var tasks: map<nat, Task>
    var order: seq<nat>  // the order in which the dictionary of tasks lists its keys
    var handles: set<nat>

    ghost predicate Ok()
      reads this
    {
      Lists(order, tasks)
    }

    constructor ()
      ensures Ok() && tasks == map[] && handles == {}
    {
      tasks, order, handles := map[], [], {};
    }

    method Update(id: nat, status: Option<Status>, progress: Option<nat>, now: int) returns (found: bool)
      requires Ok()
      modifies `tasks
      ensures Ok() && tasks == Record(old(tasks), id, status, progress, now) && (found <==> id in old(tasks))
    {
      if id !in tasks {
        return false;
      }
      if status.Some? {
        tasks := tasks[id := tasks[id].(status := status.value)];
      }
      if progress.Some? {
        tasks := tasks[id := tasks[id].(progress := progress.value)];
      }
      tasks := tasks[id := tasks[id].(updatedAt := now)];
      return true;
    }

    /** Sorts out the newest tasks, then drops, one at a time, those that are not among them and have no handle. */
    method PruneTasks()
      requires Ok()
      modifies `tasks, `order
      ensures Ok() && tasks == Prune(old(tasks), handles, KeptIds(old(tasks), old(order)))
    {
      if |tasks| <= MAX_KEEP {
        return;
      }
      var keep, ids := KeptIds(tasks, order), order;
      NoneLookedAt(tasks, handles, keep);
      for i := 0 to |ids|
        invariant Ok() && tasks == PrunedFirst(old(tasks), handles, keep, ids[..i])
      {
        assert ids[..i + 1] == ids[..i] + [ids[i]];
        PruneOneMore(old(tasks), handles, keep, ids[..i], ids[i]);
        if ids[i] !in keep && ids[i] !in handles {
          Drop(ids[i]);
        }
      }
      assert ids[..|ids|] == ids;
      AllLookedAt(old(tasks), handles, keep, ids);
    }

    method Drop(id: nat)
      requires Ok()
      modifies `tasks, `order
      ensures Ok() && tasks == old(tasks) - {id}
    {
      FilterNoRepeats(IsNot(id), order);
      tasks, order := tasks - {id}, Filter(IsNot(id), order);
    }

    method CreateTask(id: nat, createdAt: int)
      requires Ok()
      modifies this
      ensures Ok()
      ensures var listed := if id in old(tasks) then old(order) else old(order) + [id];
              var all := old(tasks)[id := Task(Pending, 0, createdAt)];
              var keep := KeptIds(all, listed);
              && (|all| > MAX_KEEP ==> Newest(all, keep))
              && tasks == Prune(all, old(handles), keep) && handles == old(handles) + {id}
    {
      if id !in tasks {
        order := order + [id];
      }
      tasks := tasks[id := Task(Pending, 0, createdAt)];
      if |tasks| > MAX_KEEP {
        KeptAreNewest(tasks, order);
      }
      PruneTasks();
      handles := handles + {id};
    }

    /** Returns whether the worker's handle is to be marked. */
    method CancelTask(id: nat, now: int) returns (mark: bool)
      requires Ok()
      modifies `tasks
      ensures Ok()
      ensures forall workers: map<nat, Worker> ::
                tasks == ApplyCancel(State(old(tasks), handles, workers), id, now).tasks
      ensures mark <==> id in old(tasks) && !Terminal(old(tasks)[id].status) && id in handles
    {
      if id !in tasks || Terminal(tasks[id].status) {
        return false;
      }
      var _ := Update(id, Some(Cancelled), None, now);
      return id in handles;
    }
  }
}
