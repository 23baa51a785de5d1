/**
 The order of the failure lanes in full, in the terms of the report: longest failed command, time of all failed
 commands, risk, number of failed commands, name. And what these quantities are.
 */
module LaneOrder {
  import opened Prelude
  import opened Text
  import opened Sorting
  import opened Lanes

  // ----- The quantities -----

  /** A timeout counts in whole seconds, the fraction dropped; one that is no number counts as zero. */
  lemma TimeoutIsWhole(c: Command)
    ensures c.timeout.Number? && c.timeout.value >= 0.0 ==>
              CommandTimeout(c) as real <= c.timeout.value < (CommandTimeout(c) + 1) as real
    ensures c.timeout.Number? && c.timeout.value < 0.0 ==>
              (CommandTimeout(c) - 1) as real < c.timeout.value <= CommandTimeout(c) as real
    ensures c.timeout.NotANumber? ==> CommandTimeout(c) == 0
  {
  }

  /** The longest failed command: no failed one is longer, and unless none failed one is that long. */
  lemma LongestFailed(m: ModuleResult)
    ensures forall c :: c in m.commands && c.status == Failed ==> CommandTimeout(c) <= MaxTimeout(m)
    ensures if exists c :: c in m.commands && c.status == Failed
            then exists c :: c in m.commands && c.status == Failed && CommandTimeout(c) == MaxTimeout(m)
            else MaxTimeout(m) == 0
  {
    assert forall c :: c in FailedCommands(m) <==> c in m.commands && c.status == Failed;
    if FailedCommands(m) != [] {
      assert FailedCommands(m)[0] in FailedCommands(m);
    }
  }

  lemma {:induction false} SumAppends<T>(f: T -> int, s: seq<T>, x: T)
    ensures Sum(f, s + [x]) == Sum(f, s) + f(x)
  {
    if s == [] {
      assert ([] + [x])[1..] == [];
    } else {
      assert (s + [x])[1..] == s[1..] + [x];
      SumAppends(f, s[1..], x);
    }
  }

  /** Every failed command adds its time to the module's total and one to the module's count; no other does. */
  lemma FailedAddUp(m: ModuleResult, c: Command)
    ensures var more := m.(commands := m.commands + [c]);
            && TotalTimeout(more) == TotalTimeout(m) + (if c.status == Failed then CommandTimeout(c) else 0)
            && FailedCount(more) == FailedCount(m) + (if c.status == Failed then 1 else 0)
    ensures m.commands == [] ==> TotalTimeout(m) == 0 && FailedCount(m) == 0
  {
    FilterConcat(IsFailedCommand, m.commands, [c]);
    FilterOne(IsFailedCommand, c);
    SumAppends(CommandTimeout, FailedCommands(m), c);
    assert FailedCommands(m) + [] == FailedCommands(m);
  }

  /** A lane's longest failed command is the longest of its modules'. */
  lemma LongestOfLane(l: Lane) returns (m: ModuleResult)
    requires l.failures != []
    ensures m in l.failures && MaxTimeout(m) == LongestIn(l)
    ensures forall x :: x in l.failures ==> MaxTimeout(x) <= LongestIn(l)
  {
    var f, s := MaxTimeout, l.failures;
    var top := Max(f, s, 0);
    m :| m in s && f(m) == top;
  }

  /** Its time and its count are the sums of theirs. */
  lemma LaneAddsUp(name: string, failures: seq<ModuleResult>, m: ModuleResult)
    ensures TimeIn(Lane(name, failures + [m])) == TimeIn(Lane(name, failures)) + TotalTimeout(m)
    ensures CountIn(Lane(name, failures + [m])) == CountIn(Lane(name, failures)) + FailedCount(m)
    ensures TimeIn(Lane(name, [])) == 0 && CountIn(Lane(name, [])) == 0
  {
    SumAppends(TotalTimeout, failures, m);
    SumAppends(FailedCount, failures, m);
  }

  /** There are four grades of risk, written in any mixture of cases; any other text is below all of them. */
  predicate Riskier(a: string, b: string) {
    || (Spells(a, "high") && !Spells(b, "high"))
    || (Spells(a, "medium-high") && !Spells(b, "high") && !Spells(b, "medium-high"))
    || (Spells(a, "medium") && !Spells(b, "high") && !Spells(b, "medium-high") && !Spells(b, "medium"))
    || (Spells(a, "low") && !Spells(b, "high") && !Spells(b, "medium-high") && !Spells(b, "medium") && !Spells(b, "low"))
  }

  lemma RiskIs(risk: string)
    ensures RiskPriority(risk) == if Spells(risk, "high") then 3 else if Spells(risk, "medium-high") then 2
                                  else if Spells(risk, "medium") then 1 else if Spells(risk, "low") then 0 else -1
  {
    LowerSpells(risk, "high");
    LowerSpells(risk, "medium-high");
    LowerSpells(risk, "medium");
    LowerSpells(risk, "low");
  }

  lemma RiskierIff(a: string, b: string)
    ensures RiskPriority(a) > RiskPriority(b) <==> Riskier(a, b)
  {
    RiskIs(a);
    RiskIs(b);
    GradesDiffer(a);
    GradesDiffer(b);
  }

  lemma GradesDiffer(risk: string)
    ensures !(Spells(risk, "high") && Spells(risk, "low"))
    ensures !(Spells(risk, "medium-high") && Spells(risk, "medium"))
  {
  }

  /** One name begins the other, or has the lesser character where they first differ. */
  ghost predicate NameComesFirst(x: string, y: string) {
    exists p: nat :: p <= |x| && p <= |y| && DifferAt(x, y, p)
  }

  predicate DifferAt(x: string, y: string, p: nat)
    requires p <= |x| && p <= |y|
  {
    x[..p] == y[..p] && (p == |x| || (p < |y| && x[p] < y[p]))
  }

  lemma {:induction false} CodesCompare(x: string, y: string)
    requires LexLe(Codes(x), Codes(y))
    ensures NameComesFirst(x, y)
    decreases |x|
  {
    if x == "" || x[0] != y[0] {
      assert DifferAt(x, y, 0);
    } else {
      assert Codes(x)[1..] == Codes(x[1..]) && Codes(y)[1..] == Codes(y[1..]);
      CodesCompare(x[1..], y[1..]);
      var p: nat :| p <= |x[1..]| && p <= |y[1..]| && DifferAt(x[1..], y[1..], p);
      assert x[..p + 1] == [x[0]] + x[1..][..p] && y[..p + 1] == [y[0]] + y[1..][..p];
      assert DifferAt(x, y, p + 1);
    }
  }

  // ----- Modules in a lane -----

  /** Longest command, then total time, then risk, then name. */
  ghost predicate ModuleComesFirst(a: ModuleResult, b: ModuleResult) {
    || MaxTimeout(a) > MaxTimeout(b)
    || (MaxTimeout(a) == MaxTimeout(b)
        && (|| TotalTimeout(a) > TotalTimeout(b)
            || (TotalTimeout(a) == TotalTimeout(b)
                && (Riskier(a.risk, b.risk) || (!Riskier(b.risk, a.risk) && NameComesFirst(a.name, b.name))))))
  }

  lemma LexTail(a: seq<int>, x: seq<int>, b: seq<int>, y: seq<int>)
    requires a != [] && b != [] && a[0] == b[0] && LexLe(a + x, b + y)
    ensures LexLe(a[1..] + x, b[1..] + y)
  {
    assert (a + x)[1..] == a[1..] + x && (b + y)[1..] == b[1..] + y;
  }

  /** Keys with equally many numbers before the names compare at the first number that differs, else by name. */
  lemma {:induction false} RanksCompare(a: seq<int>, x: string, b: seq<int>, y: string) returns (p: nat)
    requires |a| == |b| && LexLe(a + Codes(x), b + Codes(y))
    ensures p <= |a| && (forall i :: 0 <= i < p ==> a[i] == b[i])
    ensures if p == |a| then NameComesFirst(x, y) else a[p] < b[p]
    decreases |a|
  {
    if a == [] {
      assert [] + Codes(x) == Codes(x) && [] + Codes(y) == Codes(y);
      CodesCompare(x, y);
      p := 0;
    } else if a[0] != b[0] {
      assert (a + Codes(x))[0] == a[0] && (b + Codes(y))[0] == b[0];
      p := 0;
    } else {
      LexTail(a, Codes(x), b, Codes(y));
      p := RanksCompare(a[1..], x, b[1..], y);
      forall i | 0 < i < p + 1 ensures a[i] == b[i] {
        assert a[1..][i - 1] == b[1..][i - 1];
      }
      p := p + 1;
    }
  }

  lemma ModuleKeysCompare(a: ModuleResult, b: ModuleResult)
    requires LexLe(ModuleKey(a), ModuleKey(b))
    ensures ModuleComesFirst(a, b)
  {
    var p := RanksCompare(ModuleRank(a), a.name, ModuleRank(b), b.name);
    RiskierIff(a.risk, b.risk);
    RiskierIff(b.risk, a.risk);
    assert p > 0 ==> ModuleRank(a)[0] == ModuleRank(b)[0];
    assert p > 1 ==> ModuleRank(a)[1] == ModuleRank(b)[1];
    assert p > 2 ==> ModuleRank(a)[2] == ModuleRank(b)[2];
  }

  /** The modules of every lane stand in this order. */
  lemma ModulesInOrder(results: seq<ModuleResult>, l: Lane, j: nat, k: nat)
    requires l in FailureLanes(results) && j < k < |l.failures|
    ensures ModuleComesFirst(l.failures[j], l.failures[k])
  {
    LaneContents(results, l);
    ModuleKeysCompare(l.failures[j], l.failures[k]);
  }

  // ----- Lanes -----

  /** The riskiest module of the first lane is riskier than every one of the second. */
  predicate LaneRiskier(a: Lane, b: Lane) {
    exists m :: m in a.failures && forall n :: n in b.failures ==> Riskier(m.risk, n.risk)
  }

  lemma LaneRiskierIff(a: Lane, b: Lane)
    requires a.failures != [] && b.failures != []
    ensures RiskIn(a) > RiskIn(b) <==> LaneRiskier(a, b)
  {
    var x := Riskiest(a);
    var y := Riskiest(b);
    if RiskOf(x) > RiskOf(y) {
      forall n | n in b.failures ensures Riskier(x.risk, n.risk) {
        RiskierIff(x.risk, n.risk);
      }
    }
    if LaneRiskier(a, b) {
      var m :| m in a.failures && forall n :: n in b.failures ==> Riskier(m.risk, n.risk);
      RiskierIff(m.risk, y.risk);
    }
  }

  lemma Riskiest(l: Lane) returns (m: ModuleResult)
    requires l.failures != []
    ensures m in l.failures && RiskOf(m) == RiskIn(l)
    ensures forall n :: n in l.failures ==> RiskOf(n) <= RiskOf(m)
  {
    var f, s := RiskOf, l.failures;
    var top := Max(f, s, -1);
    m :| m in s && f(m) == top;
  }

  /** What a lane is judged by, besides its risk and its name. */
  datatype Weight = Weight(longest: int, time: int, failures: int)

  function WeightOf(l: Lane): Weight {
    Weight(LongestIn(l), TimeIn(l), CountIn(l))
  }

  /** Longest command, then total time, then risk, then number of failed commands, then name. */
  predicate ComesFirst(a: Weight, b: Weight, riskier: bool, lessRisky: bool, named: bool) {
    || a.longest > b.longest
    || (a.longest == b.longest && a.time > b.time)
    || (a.longest == b.longest && a.time == b.time && riskier)
    || (a.longest == b.longest && a.time == b.time && !lessRisky && a.failures > b.failures)
    || (a.longest == b.longest && a.time == b.time && !lessRisky && a.failures == b.failures && named)
  }

  ghost predicate LaneComesFirst(a: Lane, b: Lane) {
    ComesFirst(WeightOf(a), WeightOf(b), LaneRiskier(a, b), LaneRiskier(b, a), NameComesFirst(a.name, b.name))
  }

  lemma RanksDecide(a: Weight, riskA: int, b: Weight, riskB: int, p: nat, named: bool)
    requires p <= 4 && forall i :: 0 <= i < p ==> Ranked(a.longest, a.time, riskA, a.failures)[i] == Ranked(b.longest, b.time, riskB, b.failures)[i]
    requires if p == 4 then named else Ranked(a.longest, a.time, riskA, a.failures)[p] < Ranked(b.longest, b.time, riskB, b.failures)[p]
    ensures ComesFirst(a, b, riskA > riskB, riskB > riskA, named)
  {
    var r, q := Ranked(a.longest, a.time, riskA, a.failures), Ranked(b.longest, b.time, riskB, b.failures);
    assert (p > 0 ==> r[0] == q[0]) && (p > 1 ==> r[1] == q[1]) && (p > 2 ==> r[2] == q[2]) && (p > 3 ==> r[3] == q[3]);
  }

  lemma KeysDecide(a: Weight, riskA: int, x: string, b: Weight, riskB: int, y: string)
    requires LexLe(Ranked(a.longest, a.time, riskA, a.failures) + Codes(x), Ranked(b.longest, b.time, riskB, b.failures) + Codes(y))
    ensures ComesFirst(a, b, riskA > riskB, riskB > riskA, NameComesFirst(x, y))
  {
    var p := RanksCompare(Ranked(a.longest, a.time, riskA, a.failures), x, Ranked(b.longest, b.time, riskB, b.failures), y);
    RanksDecide(a, riskA, b, riskB, p, NameComesFirst(x, y));
  }

  lemma LaneKeysCompare(a: Lane, b: Lane, x: seq<int>, y: seq<int>)
    requires a.failures != [] && b.failures != [] && x == LaneKey(a) && y == LaneKey(b) && LexLe(x, y)
    ensures LaneComesFirst(a, b)
  {
    KeysDecide(WeightOf(a), RiskIn(a), a.name, WeightOf(b), RiskIn(b), b.name);
    LaneRiskierIff(a, b);
    LaneRiskierIff(b, a);
  }

  /** The lanes stand in this order. */
  lemma LanesInOrder(results: seq<ModuleResult>, i: nat, j: nat)
    requires i < j < |FailureLanes(results)|
    ensures LaneComesFirst(FailureLanes(results)[i], FailureLanes(results)[j])
  {
    var lanes := FailureLanes(results);
    SortBySorts(LaneKey, Grouped(results, LaneNames(results)));
    assert LexLe(LaneKey(lanes[i]), LaneKey(lanes[j]));
    LaneContents(results, lanes[i]);
    LaneContents(results, lanes[j]);
    LaneKeysCompare(lanes[i], lanes[j], LaneKey(lanes[i]), LaneKey(lanes[j]));
  }
}
