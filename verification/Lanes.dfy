/**
 Failure lanes of scripts/continuous_optimize.py: the failed modules of an iteration, grouped by their
 optimization lane, the slowest and riskiest lanes and modules first.
 */
module Lanes {
  import opened Prelude
  import opened Text
  import opened Sorting

  datatype Status = Passed | Failed | Skipped

  /** A timeout field may be missing or hold something that is no number. */
  datatype Timeout = Number(value: real) | NotANumber

  datatype Command = Command(name: string, status: Status, timeout: Timeout, detail: string)

  datatype ModuleResult = ModuleResult(name: string, lane: string, risk: string, status: Status, commands: seq<Command>)

  datatype Lane = Lane(name: string, failures: seq<ModuleResult>)

  // ----- Keys -----

  /** Conversion to an integer drops the fraction. */
  function Truncate(x: real): int {
    if x >= 0.0 then x.Floor else -((-x).Floor)
  }

  function CommandTimeout(c: Command): int {
    match c.timeout
    case Number(value) => Truncate(value)
    case NotANumber => 0
  }

  const RISK_PRIORITY := map["high" := 3, "medium-high" := 2, "medium" := 1, "low" := 0]

  function RiskPriority(risk: string): int {
    if Lower(risk) in RISK_PRIORITY then RISK_PRIORITY[Lower(risk)] else -1
  }

  predicate IsFailedCommand(c: Command) {
    c.status == Failed
  }

  function FailedCommands(m: ModuleResult): seq<Command> {
    Filter(IsFailedCommand, m.commands)
  }

  function FailedNames(m: ModuleResult): set<string> {
    set c | c in m.commands && c.status == Failed :: c.name
  }

  function Sum<T>(f: T -> int, s: seq<T>): int {
    if s == [] then 0 else f(s[0]) + Sum(f, s[1..])
  }

  function Max<T>(f: T -> int, s: seq<T>, default: int): (r: int)
    ensures s == [] ==> r == default
    ensures s != [] ==> exists x :: x in s && f(x) == r
    ensures forall x :: x in s ==> f(x) <= r
  {
    if s == [] then default
    else if |s| == 1 then f(s[0])
    else
      var rest := Max(f, s[1..], default);
      assert s == [s[0]] + s[1..];
      if f(s[0]) > rest then f(s[0]) else rest
  }

  function MaxTimeout(m: ModuleResult): int {
    Max(CommandTimeout, FailedCommands(m), 0)
  }

  function TotalTimeout(m: ModuleResult): int {
    Sum(CommandTimeout, FailedCommands(m))
  }

  function RiskOf(m: ModuleResult): int {
    RiskPriority(m.risk)
  }

  function FailedCount(m: ModuleResult): int {
    |FailedCommands(m)|
  }

  function ModuleRank(m: ModuleResult): (r: seq<int>)
    ensures |r| == 3
  {
    [-MaxTimeout(m), -TotalTimeout(m), -RiskOf(m)]
  }

  function ModuleKey(m: ModuleResult): seq<int> {
    ModuleRank(m) + Codes(m.name)
  }

  function LongestIn(l: Lane): int {
    Max(MaxTimeout, l.failures, 0)
  }

  function TimeIn(l: Lane): int {
    Sum(TotalTimeout, l.failures)
  }

  function RiskIn(l: Lane): int {
    Max(RiskOf, l.failures, -1)
  }

  function CountIn(l: Lane): int {
    Sum(FailedCount, l.failures)
  }

  /** Sorting ascends, so what is to come first counts negative. */
  function Ranked(longest: int, time: int, risk: int, count: int): (r: seq<int>)
    ensures |r| == 4
  {
    [-longest, -time, -risk, -count]
  }

  function LaneRank(l: Lane): (r: seq<int>)
    ensures |r| == 4
  {
    Ranked(LongestIn(l), TimeIn(l), RiskIn(l), CountIn(l))
  }

  function LaneKey(l: Lane): seq<int> {
    LaneRank(l) + Codes(l.name)
  }

  // ----- The lanes as a function of the results -----

  function FailedIn(lane: string): ModuleResult -> bool {
    (m: ModuleResult) => m.status == Failed && m.lane == lane
  }

  /** The lanes with a failed module, in the order in which they first appear. */
  function LaneNames(results: seq<ModuleResult>): seq<string> {
    if results == [] then []
    else
      var n := |results| - 1;
      var before, m := LaneNames(results[..n]), results[n];
      if m.status == Failed && m.lane !in before then before + [m.lane] else before
  }

  function LaneOf(results: seq<ModuleResult>, name: string): Lane {
    Lane(name, SortBy(ModuleKey, Filter(FailedIn(name), results)))
  }

  function Grouped(results: seq<ModuleResult>, names: seq<string>): (r: seq<Lane>)
    ensures |r| == |names|
  {
    seq(|names|, i requires 0 <= i < |names| => LaneOf(results, names[i]))
  }

  function FailureLanes(results: seq<ModuleResult>): seq<Lane> {
    SortBy(LaneKey, Grouped(results, LaneNames(results)))
  }

  // ----- What the lanes are -----

  lemma {:induction false} LaneNamesAreFailedLanes(results: seq<ModuleResult>)
    ensures NoRepeats(LaneNames(results))
    ensures forall name :: name in LaneNames(results) <==> exists m :: m in results && FailedIn(name)(m)
  {
    if results != [] {
      var n := |results| - 1;
      var m := results[n];
      LaneNamesAreFailedLanes(results[..n]);
      assert results == results[..n] + [m];
      forall name
        ensures name in LaneNames(results) <==> exists x :: x in results && FailedIn(name)(x)
      {
        if name in LaneNames(results) && name !in LaneNames(results[..n]) {
          assert m in results && FailedIn(name)(m);
        }
      }
    }
  }

  lemma GroupedHasNoRepeats(results: seq<ModuleResult>, names: seq<string>)
    requires NoRepeats(names)
    ensures NoRepeats(Grouped(results, names))
  {
    var lanes := Grouped(results, names);
    forall i, j | 0 <= i < j < |lanes| ensures lanes[i] != lanes[j] {
      assert lanes[i].name == names[i] && lanes[j].name == names[j];
    }
  }

  lemma LanesMembers(results: seq<ModuleResult>, l: Lane)
    ensures multiset(FailureLanes(results))[l] == if l.name in LaneNames(results) && l == LaneOf(results, l.name) then 1 else 0
  {
    var names := LaneNames(results);
    LaneNamesAreFailedLanes(results);
    GroupedHasNoRepeats(results, names);
    NoRepeatsCount(Grouped(results, names), l);
    SortBySorts(LaneKey, Grouped(results, names));
    if l.name in names && l == LaneOf(results, l.name) {
      var i :| 0 <= i < |names| && names[i] == l.name;
      assert Grouped(results, names)[i] == l;
    }
  }

  /**
   Each failed module stands in the lane it names as often as in the results, and nowhere else; every
   lane has a failed module; lanes and the modules of each lane are in ascending order of their keys.
   */
  lemma LanesPartitionFailures(results: seq<ModuleResult>)
    ensures var lanes := FailureLanes(results);
            && Sorted(LaneKey, lanes)
            && (forall l :: l in lanes ==> l.failures != [] && Sorted(ModuleKey, l.failures) && multiset(lanes)[l] == 1)
            && (forall l, k :: l in lanes && k in lanes && l.name == k.name ==> l == k)
            && (forall l, m :: l in lanes ==>
                multiset(l.failures)[m] == if m.status == Failed && m.lane == l.name then multiset(results)[m] else 0)
            && (forall m :: m in results && m.status == Failed ==> exists l :: l in lanes && l.name == m.lane)
  {
    var lanes := FailureLanes(results);
    LaneNamesAreFailedLanes(results);
    SortBySorts(LaneKey, Grouped(results, LaneNames(results)));
    forall l | l in lanes
      ensures l.failures != [] && Sorted(ModuleKey, l.failures) && multiset(lanes)[l] == 1 && l == LaneOf(results, l.name)
      ensures forall m :: multiset(l.failures)[m] == if m.status == Failed && m.lane == l.name then multiset(results)[m] else 0
    {
      LaneContents(results, l);
    }
    forall m | m in results && m.status == Failed ensures exists l :: l in lanes && l.name == m.lane {
      assert FailedIn(m.lane)(m);
      LanesMembers(results, LaneOf(results, m.lane));
      assert LaneOf(results, m.lane) in multiset(lanes);
    }
  }

  lemma LaneContents(results: seq<ModuleResult>, l: Lane)
    requires l in FailureLanes(results)
    ensures l == LaneOf(results, l.name) && multiset(FailureLanes(results))[l] == 1
    ensures l.failures != [] && Sorted(ModuleKey, l.failures)
    ensures forall m :: multiset(l.failures)[m] == if m.status == Failed && m.lane == l.name then multiset(results)[m] else 0
  {
    var failed := Filter(FailedIn(l.name), results);
    assert l in multiset(FailureLanes(results));
    LanesMembers(results, l);
    LaneNamesAreFailedLanes(results);
    SortBySorts(ModuleKey, failed);
    forall m ensures multiset(l.failures)[m] == if m.status == Failed && m.lane == l.name then multiset(results)[m] else 0 {
      FilterMultiset(FailedIn(l.name), results, m);
    }
    var m :| m in results && FailedIn(l.name)(m);
    assert m in multiset(failed);
    assert m in multiset(l.failures);
  }

  lemma RankDecides(a: seq<int>, x: string, b: seq<int>, y: string)
    requires a != [] && b != [] && LexLe(a + Codes(x), b + Codes(y))
    ensures a[0] <= b[0]
  {
    assert (a + Codes(x))[0] == a[0] && (b + Codes(y))[0] == b[0];
  }

  /** A lane with a longer failed command comes before one with a shorter. */
  lemma LongestLaneComesFirst(results: seq<ModuleResult>, i: nat, j: nat)
    requires i < j < |FailureLanes(results)|
    ensures var lanes := FailureLanes(results);
            LongestIn(lanes[i]) >= LongestIn(lanes[j])
  {
    var lanes := FailureLanes(results);
    SortBySorts(LaneKey, Grouped(results, LaneNames(results)));
    assert LexLe(LaneKey(lanes[i]), LaneKey(lanes[j]));
    RankDecides(LaneRank(lanes[i]), lanes[i].name, LaneRank(lanes[j]), lanes[j].name);
  }

  /** Likewise inside every lane. */
  lemma LongestModuleComesFirst(results: seq<ModuleResult>, l: Lane, j: nat, k: nat)
    requires l in FailureLanes(results) && j < k < |l.failures|
    ensures MaxTimeout(l.failures[j]) >= MaxTimeout(l.failures[k])
  {
    LaneContents(results, l);
    var a, b := l.failures[j], l.failures[k];
    assert LexLe(ModuleKey(a), ModuleKey(b));
    RankDecides(ModuleRank(a), a.name, ModuleRank(b), b.name);
  }

  // ----- The order of the results does not matter -----

  /** Module names are distinct, except that the same result may be repeated. */
  ghost predicate NamesIdentify(results: seq<ModuleResult>) {
    forall x, y :: x in results && y in results && x.name == y.name ==> x == y
  }

  lemma ModuleKeyIdentifies(results: seq<ModuleResult>)
    requires NamesIdentify(results)
    ensures KeyIdentifies(ModuleKey, results)
  {
    forall x, y | x in results && y in results && ModuleKey(x) == ModuleKey(y) ensures x == y {
      KeyEndsInName(ModuleRank(x), x.name, ModuleRank(y), y.name);
    }
  }

  lemma LaneIsCanonical(a: seq<ModuleResult>, b: seq<ModuleResult>, name: string)
    requires multiset(a) == multiset(b) && NamesIdentify(a)
    ensures LaneOf(a, name) == LaneOf(b, name)
  {
    var fa, fb := Filter(FailedIn(name), a), Filter(FailedIn(name), b);
    forall m ensures multiset(fa)[m] == multiset(fb)[m] {
      FilterMultiset(FailedIn(name), a, m);
      FilterMultiset(FailedIn(name), b, m);
    }
    assert multiset(fa) == multiset(fb);
    ModuleKeyIdentifies(fa);
    SortIsCanonical(ModuleKey, fa, fb);
  }

  /** With distinct module names, every permutation of the results gives the same lanes. */
  lemma LanesAreCanonical(a: seq<ModuleResult>, b: seq<ModuleResult>)
    requires multiset(a) == multiset(b) && NamesIdentify(a)
    ensures FailureLanes(a) == FailureLanes(b)
  {
    var la, lb := FailureLanes(a), FailureLanes(b);
    forall l ensures multiset(la)[l] == multiset(lb)[l] {
      LanesMembers(a, l);
      LanesMembers(b, l);
      LaneIsCanonical(a, b, l.name);
      LaneNamesAreFailedLanes(a);
      LaneNamesAreFailedLanes(b);
      assert forall m :: m in a <==> m in multiset(a);
      assert forall m :: m in b <==> m in multiset(b);
    }
    assert multiset(la) == multiset(lb);
    LanesPartitionFailures(a);
    LanesPartitionFailures(b);
    forall l, k | l in la && k in la && LaneKey(l) == LaneKey(k) ensures l == k {
      KeyEndsInName(LaneRank(l), l.name, LaneRank(k), k.name);
    }
    SortedIsUnique(LaneKey, la, lb);
  }

  // ----- The loop -----

  /** The groups and their order after the results `done`. */
  ghost predicate GroupsOf(names: seq<string>, grouped: map<string, seq<ModuleResult>>, done: seq<ModuleResult>) {
    && names == LaneNames(done)
    && (forall name :: name in grouped <==> name in names)
    && (forall name :: name in grouped ==> grouped[name] == Filter(FailedIn(name), done))
  }

  lemma NoGroupYet(name: string, done: seq<ModuleResult>)
    requires name !in LaneNames(done)
    ensures Filter(FailedIn(name), done) == []
  {
    LaneNamesAreFailedLanes(done);
    FilterNone(FailedIn(name), done);
  }

  function GroupIn(grouped: map<string, seq<ModuleResult>>, name: string): seq<ModuleResult> {
    if name in grouped then grouped[name] else []
  }

  lemma GroupWithNext(names: seq<string>, grouped: map<string, seq<ModuleResult>>, done: seq<ModuleResult>, m: ModuleResult,
                      name: string)
    requires GroupsOf(names, grouped, done)
    ensures Filter(FailedIn(name), done + [m])
            == if m.status == Failed && name == m.lane then GroupIn(grouped, name) + [m] else GroupIn(grouped, name)
  {
    FilterConcat(FailedIn(name), done, [m]);
    FilterOne(FailedIn(name), m);
    if name !in grouped {
      NoGroupYet(name, done);
    }
  }

  lemma NextName(done: seq<ModuleResult>, m: ModuleResult)
    ensures LaneNames(done + [m])
            == if m.status == Failed && m.lane !in LaneNames(done) then LaneNames(done) + [m.lane] else LaneNames(done)
  {
    assert (done + [m])[..|done|] == done;
  }

  lemma NextResult(names: seq<string>, grouped: map<string, seq<ModuleResult>>, done: seq<ModuleResult>, m: ModuleResult)
    requires GroupsOf(names, grouped, done)
    ensures m.status != Failed ==> GroupsOf(names, grouped, done + [m])
    ensures m.status == Failed ==>
              GroupsOf(if m.lane in grouped then names else names + [m.lane],
                       grouped[m.lane := GroupIn(grouped, m.lane) + [m]], done + [m])
  {
    NextName(done, m);
    forall name | name in grouped || name == m.lane
      ensures Filter(FailedIn(name), done + [m])
              == if m.status == Failed && name == m.lane then GroupIn(grouped, name) + [m] else GroupIn(grouped, name)
    {
      GroupWithNext(names, grouped, done, m, name);
    }
  }

  /** A dictionary keeps its keys in the order of their first insertion. */
  method GroupByLane(results: seq<ModuleResult>) returns (names: seq<string>, grouped: map<string, seq<ModuleResult>>)
    ensures GroupsOf(names, grouped, results)
  {
    names, grouped := [], map[];
    for i := 0 to |results|
      invariant GroupsOf(names, grouped, results[..i])
    {
      var result := results[i];
      NextResult(names, grouped, results[..i], result);
      assert results[..i + 1] == results[..i] + [result];
      if result.status != Failed {
        continue;
      }
      ghost var before := grouped;
      if result.lane !in grouped {
        names := names + [result.lane];
        grouped := grouped[result.lane := []];
      }
      grouped := grouped[result.lane := grouped[result.lane] + [result]];
      assert grouped == before[result.lane := GroupIn(before, result.lane) + [result]];
    }
    assert results[..|results|] == results;
  }

  method BuildFailureLanes(results: seq<ModuleResult>) returns (lanes: seq<Lane>)
    ensures lanes == FailureLanes(results)
  {
    var names, grouped := GroupByLane(results);
    var ordered := seq(|names|, i requires 0 <= i < |names| && names[i] in grouped =>
                       Lane(names[i], SortBy(ModuleKey, grouped[names[i]])));
    assert ordered == Grouped(results, names);
    lanes := SortBy(LaneKey, ordered);
  }
}
