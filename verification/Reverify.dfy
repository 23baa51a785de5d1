/**
 Re-verification in scripts/continuous_optimize.py: after the agents have worked on the failure lanes,
 the failed commands of failed modules run again and their results replace the baseline's.
 What running a command yields is a parameter, one outcome for each phase, module and command.
 */
module Reverify {
  import opened Prelude
  import opened Lanes

  datatype Plan = Plan(name: string, timeout: real)

  datatype Spec = Spec(name: string, lane: string, risk: string, plans: seq<Plan>)

  datatype Outcome = Outcome(status: Status, detail: string)

  function CommandOf(p: Plan, o: Outcome): Command {
    Command(p.name, o.status, Number(p.timeout), o.detail)
  }

  predicate IsActive(c: Command) {
    c.status != Skipped
  }

  function Summarise(commands: seq<Command>): Status {
    var active := Filter(IsActive, commands);
    if active == [] then Skipped
    else if forall c :: c in active ==> c.status == Passed then Passed
    else Failed
  }

  // ----- Running one module -----

  predicate Wanted(only: Option<set<string>>, p: Plan) {
    only.Some? ==> p.name in only.value
  }

  /** The results of the first `n` plans, without those that are not wanted. */
  function RunPlans(plans: seq<Plan>, outcome: nat -> Outcome, only: Option<set<string>>, n: nat): seq<Command>
    requires n <= |plans|
  {
    if n == 0 then []
    else RunPlans(plans, outcome, only, n - 1)
         + if Wanted(only, plans[n - 1]) then [CommandOf(plans[n - 1], outcome(n - 1))] else []
  }

  function RunOf(spec: Spec, outcome: nat -> Outcome, only: Option<set<string>>): ModuleResult {
    var commands := RunPlans(spec.plans, outcome, only, |spec.plans|);
    ModuleResult(spec.name, spec.lane, spec.risk, Summarise(commands), commands)
  }

  /** A baseline run of a module has one result for each of its plans, with name and timeout of the plan and the outcome of the run. */
  lemma BaselineRunsAll(spec: Spec, outcome: nat -> Outcome)
    ensures var result := RunOf(spec, outcome, None);
            && result.name == spec.name && result.lane == spec.lane && result.risk == spec.risk
            && |result.commands| == |spec.plans|
            && forall i :: 0 <= i < |spec.plans| ==>
                 result.commands[i]
                 == Command(spec.plans[i].name, outcome(i).status, Number(spec.plans[i].timeout), outcome(i).detail)
  {
    RunPlansAll(spec.plans, outcome, |spec.plans|);
  }

  method RunModule(spec: Spec, outcome: nat -> Outcome, only: Option<set<string>>) returns (result: ModuleResult)
    ensures result == RunOf(spec, outcome, only)
  {
    var results: seq<Command> := [];
    for i := 0 to |spec.plans|
      invariant results == RunPlans(spec.plans, outcome, only, i)
    {
      if only.Some? && spec.plans[i].name !in only.value {
        continue;
      }
      results := results + [CommandOf(spec.plans[i], outcome(i))];
    }
    result := ModuleResult(spec.name, spec.lane, spec.risk, Summarise(results), results);
  }

  // ----- Merging -----

  /** The last result of the name that was not skipped: the entry a dictionary filled in order keeps. */
  function LastActive(commands: seq<Command>, name: string): (r: Option<Command>)
    ensures r.Some? ==> r.value in commands && r.value.name == name && IsActive(r.value)
    ensures r.None? ==> forall c :: c in commands && c.name == name ==> !IsActive(c)
  {
    if commands == [] then None
    else
      var n := |commands| - 1;
      assert commands == commands[..n] + [commands[n]];
      if commands[n].name == name && IsActive(commands[n]) then Some(commands[n])
      else LastActive(commands[..n], name)
  }

  function Replaced(verification: seq<Command>): Command -> Command {
    (c: Command) => LastActive(verification, c.name).GetOr(c)
  }

  function IsNewActive(baseline: seq<Command>): Command -> bool {
    (c: Command) => IsActive(c) && forall b :: b in baseline ==> b.name != c.name
  }

  function MergeCommands(baseline: seq<Command>, verification: seq<Command>): seq<Command> {
    seq(|baseline|, i requires 0 <= i < |baseline| => Replaced(verification)(baseline[i]))
    + Filter(IsNewActive(baseline), verification)
  }

  function LastNamed(results: seq<ModuleResult>, name: string): (r: Option<ModuleResult>)
    ensures r.Some? ==> r.value in results && r.value.name == name
    ensures r.None? ==> forall m :: m in results ==> m.name != name
  {
    if results == [] then None
    else
      var n := |results| - 1;
      assert results == results[..n] + [results[n]];
      if results[n].name == name then Some(results[n]) else LastNamed(results[..n], name)
  }

  function Merged(m: ModuleResult, verification: Option<ModuleResult>): ModuleResult {
    if verification.None? then m
    else
      var commands := MergeCommands(m.commands, verification.value.commands);
      m.(status := Summarise(commands), commands := commands)
  }

  function MergeModules(baseline: seq<ModuleResult>, verification: seq<ModuleResult>): (r: seq<ModuleResult>)
    ensures |r| == |baseline|
  {
    seq(|baseline|, i requires 0 <= i < |baseline| => Merged(baseline[i], LastNamed(verification, baseline[i].name)))
  }

  method MergeModuleResults(baseline: seq<ModuleResult>, verification: seq<ModuleResult>)
    returns (merged: seq<ModuleResult>)
    ensures merged == MergeModules(baseline, verification)
  {
    var replacements: map<string, ModuleResult> := map[];
    for i := 0 to |verification|
      invariant forall name :: name in replacements <==> LastNamed(verification[..i], name).Some?
      invariant forall name :: name in replacements ==> LastNamed(verification[..i], name) == Some(replacements[name])
    {
      assert verification[..i + 1][..i] == verification[..i];
      replacements := replacements[verification[i].name := verification[i]];
    }
    assert verification[..|verification|] == verification;
    merged := [];
    for i := 0 to |baseline|
      invariant |merged| == i
      invariant forall j :: 0 <= j < i ==> merged[j] == Merged(baseline[j], LastNamed(verification, baseline[j].name))
    {
      var result := baseline[i];
      if result.name !in replacements {
        merged := merged + [result];
        continue;
      }
      var commands := MergeCommands(result.commands, replacements[result.name].commands);
      merged := merged + [result.(status := Summarise(commands), commands := commands)];
    }
  }

  /** `p` is the last result of the name that was not skipped. */
  ghost predicate IsLastActive(commands: seq<Command>, name: string, p: nat) {
    && p < |commands| && commands[p].name == name && IsActive(commands[p])
    && forall q :: p < q < |commands| && commands[q].name == name ==> !IsActive(commands[q])
  }

  lemma {:induction false} LastActiveAt(commands: seq<Command>, name: string) returns (p: nat)
    requires LastActive(commands, name).Some?
    ensures IsLastActive(commands, name, p) && LastActive(commands, name) == Some(commands[p])
  {
    var n := |commands| - 1;
    if commands[n].name == name && IsActive(commands[n]) {
      p := n;
    } else {
      p := LastActiveAt(commands[..n], name);
      assert forall q :: 0 <= q < n ==> commands[..n][q] == commands[q];
    }
  }

  /** A rerun that was not skipped, of a command that the baseline does not have. */
  function AddedByReruns(baseline: seq<Command>): Command -> bool {
    (c: Command) => c.status != Skipped && forall i :: 0 <= i < |baseline| ==> baseline[i].name != c.name
  }

  /**
   Merging two lists of results keeps every baseline command at its place, replaced by the last rerun of
   its name that was not skipped if there is one, and appends the reruns of other names that were not
   skipped, in their order.
   */
  lemma MergeKeepsCommands(baseline: seq<Command>, verification: seq<Command>)
    ensures var merged := MergeCommands(baseline, verification);
            && |merged| >= |baseline|
            && merged[|baseline|..] == Filter(AddedByReruns(baseline), verification)
            && forall i :: 0 <= i < |baseline| ==>
                 && merged[i].name == baseline[i].name
                 && if exists p: nat :: IsLastActive(verification, baseline[i].name, p)
                    then exists p: nat :: IsLastActive(verification, baseline[i].name, p) && merged[i] == verification[p]
                    else merged[i] == baseline[i]
  {
    var merged := MergeCommands(baseline, verification);
    FilterAgree(IsNewActive(baseline), AddedByReruns(baseline), verification);
    forall i | 0 <= i < |baseline|
      ensures merged[i].name == baseline[i].name
      ensures if exists p: nat :: IsLastActive(verification, baseline[i].name, p)
              then exists p: nat :: IsLastActive(verification, baseline[i].name, p) && merged[i] == verification[p]
              else merged[i] == baseline[i]
    {
      assert merged[i] == Replaced(verification)(baseline[i]);
      if LastActive(verification, baseline[i].name).Some? {
        var p := LastActiveAt(verification, baseline[i].name);
      } else {
        assert forall p :: 0 <= p < |verification| ==> verification[p] in verification;
      }
    }
  }

  lemma StatusMeaning(commands: seq<Command>)
    ensures Summarise(commands) == Failed <==> exists c :: c in commands && c.status == Failed
    ensures Summarise(commands) == Passed
            <==> (exists c :: c in commands && c.status == Passed) && forall c :: c in commands ==> c.status != Failed
  {
    var active := Filter(IsActive, commands);
    if active != [] {
      assert active[0] in active;
    }
  }

  // ----- One iteration -----

  /** What an iteration runs: a baseline and a re-verification outcome for each module and command. */
  datatype World = World(baseline: (nat, nat) -> Outcome, rerun: (nat, nat) -> Outcome)

  function Phase(run: (nat, nat) -> Outcome, i: nat): nat -> Outcome {
    (k: nat) => run(i, k)
  }

  function Baseline(specs: seq<Spec>, w: World): (r: seq<ModuleResult>)
    ensures |r| == |specs|
  {
    seq(|specs|, i requires 0 <= i < |specs| => RunOf(specs[i], Phase(w.baseline, i), None))
  }

  /** Each module of the baseline has the outcomes of its own commands. */
  lemma BaselineIs(specs: seq<Spec>, w: World, i: nat)
    requires i < |specs|
    ensures var result := Baseline(specs, w)[i];
            && result.name == specs[i].name && |result.commands| == |specs[i].plans|
            && forall k :: 0 <= k < |specs[i].plans| ==>
                 result.commands[k].status == w.baseline(i, k).status && result.commands[k].detail == w.baseline(i, k).detail
  {
    BaselineRunsAll(specs[i], Phase(w.baseline, i));
  }

  /** The modules of the lanes, one lane after the other. */
  function AllFailures(lanes: seq<Lane>): seq<ModuleResult> {
    if lanes == [] then [] else AllFailures(lanes[..|lanes| - 1]) + lanes[|lanes| - 1].failures
  }

  /** The commands to run again, for each failed module. */
  function Targets(failures: seq<ModuleResult>): map<string, set<string>> {
    if failures == [] then map[]
    else
      var n := |failures| - 1;
      Targets(failures[..n])[failures[n].name := FailedNames(failures[n])]
  }

  /** The reruns among the first `n` modules. */
  function Reruns(specs: seq<Spec>, w: World, targets: map<string, set<string>>, n: nat): seq<ModuleResult>
    requires n <= |specs|
  {
    if n == 0 then []
    else Reruns(specs, w, targets, n - 1)
         + if specs[n - 1].name in targets
           then [RunOf(specs[n - 1], Phase(w.rerun, n - 1), Some(targets[specs[n - 1].name]))]
           else []
  }

  function Verification(specs: seq<Spec>, w: World, skipAgents: bool): seq<ModuleResult> {
    var lanes := FailureLanes(Baseline(specs, w));
    if lanes != [] && !skipAgents then Reruns(specs, w, Targets(AllFailures(lanes)), |specs|) else []
  }

  function Final(specs: seq<Spec>, w: World, skipAgents: bool): (r: seq<ModuleResult>)
    ensures |r| == |specs|
  {
    MergeModules(Baseline(specs, w), Verification(specs, w, skipAgents))
  }

  method RunBaseline(specs: seq<Spec>, w: World) returns (baseline: seq<ModuleResult>)
    ensures baseline == Baseline(specs, w)
  {
    baseline := [];
    for i := 0 to |specs|
      invariant |baseline| == i
      invariant forall j :: 0 <= j < i ==> baseline[j] == RunOf(specs[j], Phase(w.baseline, j), None)
    {
      var result := RunModule(specs[i], Phase(w.baseline, i), None);
      baseline := baseline + [result];
    }
  }

  method RunVerification(specs: seq<Spec>, w: World, targets: map<string, set<string>>)
    returns (verification: seq<ModuleResult>)
    ensures verification == Reruns(specs, w, targets, |specs|)
  {
    verification := [];
    for i := 0 to |specs|
      invariant verification == Reruns(specs, w, targets, i)
    {
      if specs[i].name in targets {
        var result := RunModule(specs[i], Phase(w.rerun, i), Some(targets[specs[i].name]));
        verification := verification + [result];
      }
    }
  }

  method RunIteration(specs: seq<Spec>, w: World, skipAgents: bool) returns (final: seq<ModuleResult>, issues: nat)
    ensures final == Final(specs, w, skipAgents)
    ensures issues == |Filter((m: ModuleResult) => m.status == Failed, final)|
  {
    var baseline := RunBaseline(specs, w);
    var lanes := BuildFailureLanes(baseline);
    var verification: seq<ModuleResult> := [];
    if lanes != [] && !skipAgents {
      verification := RunVerification(specs, w, Targets(AllFailures(lanes)));
    }
    final := MergeModuleResults(baseline, verification);
    issues := |Filter((m: ModuleResult) => m.status == Failed, final)|;
  }

  // ----- What an iteration ends with -----

  /** Module names are distinct, and so are the command names of each module. */
  ghost predicate DistinctNames(specs: seq<Spec>) {
    && (forall i, j :: 0 <= i < |specs| && 0 <= j < |specs| && specs[i].name == specs[j].name ==> i == j)
    && (forall i :: 0 <= i < |specs| ==> DistinctPlans(specs[i].plans))
  }

  ghost predicate DistinctPlans(plans: seq<Plan>) {
    forall j, k :: 0 <= j < |plans| && 0 <= k < |plans| && plans[j].name == plans[k].name ==> j == k
  }

  lemma {:induction false} RunPlansAll(plans: seq<Plan>, outcome: nat -> Outcome, n: nat)
    requires n <= |plans|
    ensures |RunPlans(plans, outcome, None, n)| == n
    ensures forall k :: 0 <= k < n ==> RunPlans(plans, outcome, None, n)[k] == CommandOf(plans[k], outcome(k))
  {
    if n > 0 {
      RunPlansAll(plans, outcome, n - 1);
    }
  }

  /** The rerun of a command, if it is wanted and not skipped. */
  lemma {:induction false} RerunOfCommand(plans: seq<Plan>, outcome: nat -> Outcome, names: set<string>, n: nat, k: nat)
    requires n <= |plans| && k < |plans| && DistinctPlans(plans)
    ensures LastActive(RunPlans(plans, outcome, Some(names), n), plans[k].name)
            == if k < n && plans[k].name in names && outcome(k).status != Skipped
               then Some(CommandOf(plans[k], outcome(k))) else None
  {
    if n > 0 {
      RerunOfCommand(plans, outcome, names, n - 1, k);
      var before, all := RunPlans(plans, outcome, Some(names), n - 1), RunPlans(plans, outcome, Some(names), n);
      if |all| > |before| {
        assert all[..|before|] == before;
      } else {
        assert all == before;
      }
      assert plans[n - 1].name == plans[k].name ==> k == n - 1;
    }
  }

  lemma {:induction false} RerunsAreOfPlans(plans: seq<Plan>, outcome: nat -> Outcome, names: set<string>, n: nat, c: Command)
    requires n <= |plans| && c in RunPlans(plans, outcome, Some(names), n)
    ensures exists k :: 0 <= k < n && c == CommandOf(plans[k], outcome(k)) && c.name in names
  {
    if c in RunPlans(plans, outcome, Some(names), n - 1) {
      RerunsAreOfPlans(plans, outcome, names, n - 1, c);
    }
  }

  lemma {:induction false} AllFailuresMembers(lanes: seq<Lane>, m: ModuleResult)
    ensures m in AllFailures(lanes) <==> exists l :: l in lanes && m in l.failures
  {
    if lanes != [] {
      var n := |lanes| - 1;
      AllFailuresMembers(lanes[..n], m);
      assert lanes == lanes[..n] + [lanes[n]];
    }
  }

  lemma {:induction false} TargetsOf(failures: seq<ModuleResult>, name: string)
    ensures name in Targets(failures) <==> exists m :: m in failures && m.name == name
    ensures name in Targets(failures) ==> exists m :: m in failures && m.name == name && Targets(failures)[name] == FailedNames(m)
  {
    if failures != [] {
      var n := |failures| - 1;
      TargetsOf(failures[..n], name);
      assert failures == failures[..n] + [failures[n]];
    }
  }

  lemma FailuresAreInLanes(results: seq<ModuleResult>, m: ModuleResult)
    ensures m in AllFailures(FailureLanes(results)) <==> m in results && m.status == Failed
  {
    var lanes := FailureLanes(results);
    LanesPartitionFailures(results);
    AllFailuresMembers(lanes, m);
    assert m in results <==> m in multiset(results);
    forall l | l in lanes
      ensures m in l.failures <==> m in results && m.status == Failed && m.lane == l.name
    {
      assert m in l.failures <==> m in multiset(l.failures);
    }
  }

  /** Every failed module, and no other, is a target, with its failed commands. */
  lemma FailedModulesAreTargets(results: seq<ModuleResult>, m: ModuleResult)
    requires m in results && forall x :: x in results && x.name == m.name ==> x == m
    ensures var targets := Targets(AllFailures(FailureLanes(results)));
            && (m.name in targets <==> m.status == Failed)
            && (m.status == Failed ==> targets[m.name] == FailedNames(m) && FailureLanes(results) != [])
  {
    var failures := AllFailures(FailureLanes(results));
    TargetsOf(failures, m.name);
    FailuresAreInLanes(results, m);
    forall x | x in failures && x.name == m.name ensures x == m && m.status == Failed {
      FailuresAreInLanes(results, x);
    }
  }

  lemma BaselineNames(specs: seq<Spec>, w: World, i: nat)
    requires i < |specs| && DistinctNames(specs)
    ensures var b := Baseline(specs, w);
            b[i] in b && b[i].name == specs[i].name && forall x :: x in b && x.name == specs[i].name ==> x == b[i]
  {
    var b := Baseline(specs, w);
    forall x | x in b && x.name == specs[i].name ensures x == b[i] {
      var j :| 0 <= j < |b| && b[j] == x;
      assert b[j].name == specs[j].name;
    }
  }

  lemma {:induction false} RerunOfModule(specs: seq<Spec>, w: World, targets: map<string, set<string>>, n: nat, i: nat)
    requires n <= |specs| && i < |specs| && DistinctNames(specs)
    ensures LastNamed(Reruns(specs, w, targets, n), specs[i].name)
            == if i < n && specs[i].name in targets
               then Some(RunOf(specs[i], Phase(w.rerun, i), Some(targets[specs[i].name]))) else None
  {
    if n > 0 {
      RerunOfModule(specs, w, targets, n - 1, i);
      var before, all := Reruns(specs, w, targets, n - 1), Reruns(specs, w, targets, n);
      if specs[n - 1].name in targets {
        assert all[..|before|] == before;
      } else {
        assert all == before;
      }
      assert specs[n - 1].name == specs[i].name ==> i == n - 1;
    }
  }

  /** The command's result at the end: its rerun, if the command failed and its rerun was not skipped. */
  function FinalCommand(p: Plan, before: Outcome, again: Outcome, skipAgents: bool): Command {
    CommandOf(p, if before.status == Failed && again.status != Skipped && !skipAgents then again else before)
  }

  lemma MergeOfReruns(spec: Spec, before: nat -> Outcome, again: nat -> Outcome)
    requires DistinctPlans(spec.plans)
    ensures var baseline := RunOf(spec, before, None);
            var commands := MergeCommands(baseline.commands, RunOf(spec, again, Some(FailedNames(baseline))).commands);
            && |commands| == |spec.plans|
            && forall k :: 0 <= k < |spec.plans| ==> commands[k] == FinalCommand(spec.plans[k], before(k), again(k), false)
  {
    var plans := spec.plans;
    var baseline := RunOf(spec, before, None);
    var names := FailedNames(baseline);
    RunPlansAll(plans, before, |plans|);
    var reruns := RunPlans(plans, again, Some(names), |plans|);
    var extra := Filter(IsNewActive(baseline.commands), reruns);
    if extra != [] {
      assert extra[0] in reruns && IsNewActive(baseline.commands)(extra[0]);
      RerunsAreOfPlans(plans, again, names, |plans|, extra[0]);
    }
    forall k | 0 <= k < |plans|
      ensures Replaced(reruns)(baseline.commands[k]) == FinalCommand(plans[k], before(k), again(k), false)
    {
      RerunOfCommand(plans, again, names, |plans|, k);
      assert baseline.commands[k] == CommandOf(plans[k], before(k)) && baseline.commands[k] in baseline.commands;
    }
  }

  /** What is merged into a module's baseline: its own reruns when it failed, nothing otherwise. */
  lemma RerunsMerged(specs: seq<Spec>, w: World, skipAgents: bool, i: nat)
    requires i < |specs| && DistinctNames(specs)
    ensures var b := Baseline(specs, w)[i];
            LastNamed(Verification(specs, w, skipAgents), specs[i].name)
            == if b.status == Failed && !skipAgents then Some(RunOf(specs[i], Phase(w.rerun, i), Some(FailedNames(b)))) else None
  {
    var baseline := Baseline(specs, w);
    BaselineNames(specs, w, i);
    FailedModulesAreTargets(baseline, baseline[i]);
    RerunOfModule(specs, w, Targets(AllFailures(FailureLanes(baseline))), |specs|, i);
  }

  /** A module that ran as `b` ends as `f`, its commands in place and only the failed ones replaced. */
  ghost predicate EndsAs(b: ModuleResult, f: ModuleResult, plans: seq<Plan>, before: nat -> Outcome, again: nat -> Outcome,
                         skipAgents: bool)
  {
    && f == b.(status := f.status, commands := f.commands)
    && |f.commands| == |b.commands| == |plans|
    && f.status == Summarise(f.commands)
    && (b.status != Failed ==> f == b)
    && forall k :: 0 <= k < |plans| ==>
         && b.commands[k] == CommandOf(plans[k], before(k))
         && f.commands[k] == FinalCommand(plans[k], before(k), again(k), skipAgents)
  }

  lemma MergedInPlace(spec: Spec, before: nat -> Outcome, again: nat -> Outcome, skipAgents: bool)
    requires DistinctPlans(spec.plans)
    ensures var b := RunOf(spec, before, None);
            var reruns := if b.status == Failed && !skipAgents then Some(RunOf(spec, again, Some(FailedNames(b)))) else None;
            EndsAs(b, Merged(b, reruns), spec.plans, before, again, skipAgents)
  {
    var b := RunOf(spec, before, None);
    RunPlansAll(spec.plans, before, |spec.plans|);
    if b.status == Failed && !skipAgents {
      MergeOfReruns(spec, before, again);
    } else if !skipAgents {
      StatusByIndex(b.commands);
    }
  }

  /** No baseline command disappears or moves, and only failed ones change. */
  lemma CommandsStayInPlace(specs: seq<Spec>, w: World, skipAgents: bool, i: nat)
    requires i < |specs| && DistinctNames(specs)
    ensures EndsAs(Baseline(specs, w)[i], Final(specs, w, skipAgents)[i], specs[i].plans,
                   Phase(w.baseline, i), Phase(w.rerun, i), skipAgents)
  {
    RerunsMerged(specs, w, skipAgents, i);
    MergedInPlace(specs[i], Phase(w.baseline, i), Phase(w.rerun, i), skipAgents);
  }

  /** Re-verification is monotone: a module that fails at the end failed in the baseline. */
  lemma FinalFailuresWereFailures(specs: seq<Spec>, w: World, skipAgents: bool, i: nat)
    requires i < |specs| && DistinctNames(specs)
    requires Final(specs, w, skipAgents)[i].status == Failed
    ensures Baseline(specs, w)[i].status == Failed
  {
    CommandsStayInPlace(specs, w, skipAgents, i);
  }

  /** A failed module ends passed exactly when every failed command has a rerun that passed; otherwise it ends failed. */
  lemma FailedModulePassesIffRerunsPass(specs: seq<Spec>, w: World, i: nat)
    requires i < |specs| && DistinctNames(specs)
    requires Baseline(specs, w)[i].status == Failed
    ensures var status, before, again := Final(specs, w, false)[i].status, Phase(w.baseline, i), Phase(w.rerun, i);
            && (status == Passed
                <==> forall k :: 0 <= k < |specs[i].plans| && before(k).status == Failed ==> again(k).status == Passed)
            && (status == Passed || status == Failed)
  {
    CommandsStayInPlace(specs, w, false, i);
    PassesIffRerunsPass(Baseline(specs, w)[i], Final(specs, w, false)[i], specs[i].plans,
                        Phase(w.baseline, i), Phase(w.rerun, i));
  }

  lemma PassesIffRerunsPass(b: ModuleResult, f: ModuleResult, plans: seq<Plan>, before: nat -> Outcome, again: nat -> Outcome)
    requires EndsAs(b, f, plans, before, again, false)
    requires b.status == Summarise(b.commands) && b.status == Failed
    ensures f.status == Passed <==> forall k :: 0 <= k < |plans| && before(k).status == Failed ==> again(k).status == Passed
    ensures f.status == Passed || f.status == Failed
  {
    StatusByIndex(b.commands);
    StatusByIndex(f.commands);
    forall k | 0 <= k < |plans|
      ensures b.commands[k].status == before(k).status
      ensures f.commands[k].status
              == if before(k).status == Failed && again(k).status != Skipped then again(k).status else before(k).status
    {
      assert b.commands[k] == CommandOf(plans[k], before(k));
    }
    var k :| 0 <= k < |plans| && b.commands[k].status == Failed;
    assert f.commands[k].status == Failed || f.commands[k].status == Passed;
  }

  lemma StatusByIndex(commands: seq<Command>)
    ensures Summarise(commands) == Failed <==> exists k :: 0 <= k < |commands| && commands[k].status == Failed
    ensures Summarise(commands) == Passed
            <==> (exists k :: 0 <= k < |commands| && commands[k].status == Passed)
                 && forall k :: 0 <= k < |commands| ==> commands[k].status != Failed
  {
    StatusMeaning(commands);
    assert forall k :: 0 <= k < |commands| ==> commands[k] in commands;
  }

  /** Without agents nothing runs again, and the baseline stands. */
  lemma WithoutAgentsBaselineStands(specs: seq<Spec>, w: World)
    ensures Final(specs, w, true) == Baseline(specs, w)
  {
  }
}
