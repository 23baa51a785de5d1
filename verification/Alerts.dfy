/**
 The alert manager of app/core/metrics_collector.py: debounced thresholds and the list of alerts
 they raise and resolve. A check takes one clock reading and, for each threshold, the latest value of
 its metric, if the collector has any.
 */
module Alerts {
  import opened Prelude

  datatype Threshold = Threshold(metric: string, limit: real, op: string, duration: real,
                                 violationStart: Option<real>, active: bool)

  datatype Alert = Alert(metric: string, limit: real, value: real, op: string, timestamp: real,
                         active: bool, resolvedAt: Option<real>)

  datatype State = State(thresholds: seq<Threshold>, alerts: seq<Alert>)

  predicate Evaluate(value: real, limit: real, op: string) {
    if op == "gt" then value > limit
    else if op == "lt" then value < limit
    else if op == "eq" then value == limit
    else if op == "ge" then value >= limit
    else if op == "le" then value <= limit
    else false
  }

  /** The program tests the start time for truth, so a start at time zero counts as none. */
  function StartOr(start: Option<real>, now: real): real {
    if start.Some? && start.value != 0.0 then start.value else now
  }

  predicate Met(th: Threshold, reading: Option<real>) {
    reading.Some? && Evaluate(reading.value, th.limit, th.op)
  }

  /** What one check does to a threshold. */
  function CheckOne(th: Threshold, reading: Option<real>, now: real): Threshold {
    if reading.None? then th
    else if Met(th, reading) then
      var start := StartOr(th.violationStart, now);
      th.(violationStart := Some(start), active := th.active || now - start >= th.duration)
    else th.(violationStart := None, active := false)
  }

  function Trigger(alerts: seq<Alert>, th: Threshold, value: real, now: real): seq<Alert> {
    alerts + [Alert(th.metric, th.limit, value, th.op, now, true, None)]
  }

  /** The newest active alert of the metric becomes resolved. */
  function Resolve(alerts: seq<Alert>, metric: string, now: real): seq<Alert> {
    if alerts == [] then []
    else
      var n := |alerts| - 1;
      if alerts[n].metric == metric && alerts[n].active then alerts[..n] + [alerts[n].(active := false, resolvedAt := Some(now))]
      else Resolve(alerts[..n], metric, now) + [alerts[n]]
  }

  function AlertsAfter(alerts: seq<Alert>, th: Threshold, reading: Option<real>, now: real): seq<Alert> {
    var th' := CheckOne(th, reading, now);
    if th'.active && !th.active then Trigger(alerts, th, reading.GetOr(0.0), now)
    else if th.active && !th'.active then Resolve(alerts, th.metric, now)
    else alerts
  }

  function ReadingFor(readings: seq<Option<real>>, i: nat): Option<real> {
    if i < |readings| then readings[i] else None
  }

  /** The first `n` thresholds checked, in list order. */
  function CheckFirst(s: State, readings: seq<Option<real>>, now: real, n: nat): State
    requires n <= |s.thresholds|
  {
    if n == 0 then s
    else
      var t := CheckFirst(s, readings, now, n - 1);
      State(CheckedThresholds(s.thresholds, readings, now, n),
            AlertsAfter(t.alerts, s.thresholds[n - 1], ReadingFor(readings, n - 1), now))
  }

  function CheckedThresholds(ths: seq<Threshold>, readings: seq<Option<real>>, now: real, n: nat): seq<Threshold>
    requires n <= |ths|
  {
    seq(|ths|, i requires 0 <= i < |ths| => if i < n then CheckOne(ths[i], ReadingFor(readings, i), now) else ths[i])
  }

  datatype Event = Add(th: Threshold) | Check(readings: seq<Option<real>>, now: real)

  function Step(s: State, ev: Event): State {
    match ev
    case Add(th) => s.(thresholds := s.thresholds + [th])
    case Check(readings, now) => CheckFirst(s, readings, now, |s.thresholds|)
  }

  function Run(s: State, events: seq<Event>): State {
    if events == [] then s else Step(Run(s, events[..|events| - 1]), events[|events| - 1])
  }

  // ----- Bookkeeping -----

  function ActiveAlerts(alerts: seq<Alert>, metric: string): nat {
    if alerts == [] then 0
    else
      var n := |alerts| - 1;
      ActiveAlerts(alerts[..n], metric) + if alerts[n].metric == metric && alerts[n].active then 1 else 0
  }

  function ActiveThresholds(ths: seq<Threshold>, metric: string): nat {
    if ths == [] then 0
    else
      var n := |ths| - 1;
      ActiveThresholds(ths[..n], metric) + if ths[n].metric == metric && ths[n].active then 1 else 0
  }

  ghost predicate InStep(s: State) {
    forall metric :: ActiveAlerts(s.alerts, metric) == ActiveThresholds(s.thresholds, metric)
  }

  lemma TriggerCounts(alerts: seq<Alert>, th: Threshold, value: real, now: real, metric: string)
    ensures ActiveAlerts(Trigger(alerts, th, value, now), metric)
            == ActiveAlerts(alerts, metric) + if th.metric == metric then 1 else 0
  {
    assert Trigger(alerts, th, value, now)[..|alerts|] == alerts;
  }

  /** Resolving takes exactly one active alert away, provided there is one. */
  lemma {:induction false} ResolveCounts(alerts: seq<Alert>, m: string, now: real, metric: string)
    requires ActiveAlerts(alerts, m) > 0
    ensures |Resolve(alerts, m, now)| == |alerts|
    ensures ActiveAlerts(Resolve(alerts, m, now), metric) == ActiveAlerts(alerts, metric) - if m == metric then 1 else 0
  {
    var n := |alerts| - 1;
    if alerts[n].metric == m && alerts[n].active {
      assert Resolve(alerts, m, now)[..n] == alerts[..n];
    } else {
      ResolveCounts(alerts[..n], m, now, metric);
      assert Resolve(alerts, m, now)[..n] == Resolve(alerts[..n], m, now);
    }
  }

  lemma {:induction false} ThresholdUpdateCounts(ths: seq<Threshold>, i: nat, th: Threshold, metric: string)
    requires i < |ths| && th.metric == ths[i].metric
    ensures ActiveThresholds(ths[i := th], metric) + (if ths[i].metric == metric && ths[i].active then 1 else 0)
            == ActiveThresholds(ths, metric) + if th.metric == metric && th.active then 1 else 0
  {
    var n := |ths| - 1;
    if i < n {
      ThresholdUpdateCounts(ths[..n], i, th, metric);
      assert ths[i := th][..n] == ths[..n][i := th];
    } else {
      assert ths[i := th][..n] == ths[..n];
    }
  }

  lemma {:induction false} ActivePositive(ths: seq<Threshold>, i: nat)
    requires i < |ths| && ths[i].active
    ensures ActiveThresholds(ths, ths[i].metric) > 0
  {
    if i < |ths| - 1 {
      ActivePositive(ths[..|ths| - 1], i);
    }
  }

  lemma CheckOneKeepsInStep(ths: seq<Threshold>, alerts: seq<Alert>, i: nat, reading: Option<real>, now: real)
    requires i < |ths| && InStep(State(ths, alerts))
    ensures InStep(State(ths[i := CheckOne(ths[i], reading, now)], AlertsAfter(alerts, ths[i], reading, now)))
  {
    var th' := CheckOne(ths[i], reading, now);
    forall metric
      ensures ActiveAlerts(AlertsAfter(alerts, ths[i], reading, now), metric) == ActiveThresholds(ths[i := th'], metric)
    {
      assert ActiveAlerts(alerts, metric) == ActiveThresholds(ths, metric);
      ThresholdUpdateCounts(ths, i, th', metric);
      if th'.active && !ths[i].active {
        TriggerCounts(alerts, ths[i], reading.GetOr(0.0), now, metric);
      } else if ths[i].active && !th'.active {
        ActivePositive(ths, i);
        assert ActiveAlerts(alerts, ths[i].metric) == ActiveThresholds(ths, ths[i].metric);
        ResolveCounts(alerts, ths[i].metric, now, metric);
      }
    }
  }

  lemma {:induction false} CheckFirstKeepsInStep(s: State, readings: seq<Option<real>>, now: real, n: nat)
    requires n <= |s.thresholds| && InStep(s)
    ensures InStep(CheckFirst(s, readings, now, n))
    ensures CheckFirst(s, readings, now, n).thresholds == CheckedThresholds(s.thresholds, readings, now, n)
  {
    if n == 0 {
      assert CheckedThresholds(s.thresholds, readings, now, 0) == s.thresholds;
    } else {
      CheckFirstKeepsInStep(s, readings, now, n - 1);
      var t := CheckFirst(s, readings, now, n - 1);
      assert t.thresholds[n - 1] == s.thresholds[n - 1];
      CheckOneKeepsInStep(t.thresholds, t.alerts, n - 1, ReadingFor(readings, n - 1), now);
      assert t.thresholds[n - 1 := CheckOne(s.thresholds[n - 1], ReadingFor(readings, n - 1), now)]
          == CheckedThresholds(s.thresholds, readings, now, n);
    }
  }

  lemma CheckNext(before: State, readings: seq<Option<real>>, now: real, i: nat, s: State)
    requires i < |before.thresholds| && s == CheckFirst(before, readings, now, i)
    requires s.thresholds == CheckedThresholds(before.thresholds, readings, now, i)
    ensures var th, reading := s.thresholds[i], ReadingFor(readings, i);
            && CheckFirst(before, readings, now, i + 1)
               == State(s.thresholds[i := CheckOne(th, reading, now)], AlertsAfter(s.alerts, th, reading, now))
            && s.thresholds[i := CheckOne(th, reading, now)] == CheckedThresholds(before.thresholds, readings, now, i + 1)
  {
  }

  /** Thresholds are added inactive. */
  ghost predicate AddsInactive(events: seq<Event>) {
    forall i :: 0 <= i < |events| && events[i].Add? ==> !events[i].th.active
  }

  /**
   Bookkeeping. In every run that adds its thresholds inactive, each metric always has as many active
   alerts as active thresholds, however many thresholds share the metric; so resolving always finds one.
   */
  lemma {:induction false} AlertsStayInStep(events: seq<Event>)
    requires AddsInactive(events)
    ensures InStep(Run(State([], []), events))
  {
    if events != [] {
      var n := |events| - 1;
      AlertsStayInStep(events[..n]);
      var s := Run(State([], []), events[..n]);
      match events[n]
      case Add(th) =>
        var s' := Step(s, events[n]);
        forall metric ensures ActiveAlerts(s'.alerts, metric) == ActiveThresholds(s'.thresholds, metric) {
          assert s'.thresholds[..|s.thresholds|] == s.thresholds;
          assert ActiveAlerts(s.alerts, metric) == ActiveThresholds(s.thresholds, metric);
        }
      case Check(readings, now) =>
        CheckFirstKeepsInStep(s, readings, now, |s.thresholds|);
    }
  }

  // ----- Which alerts stay active -----

  /** What an alert says of the threshold that raised it. */
  datatype Tag = Tag(metric: string, limit: real, op: string)

  function AlertTag(a: Alert): Tag { Tag(a.metric, a.limit, a.op) }

  function ThresholdTag(th: Threshold): Tag { Tag(th.metric, th.limit, th.op) }

  function One(yes: bool): nat {
    if yes then 1 else 0
  }

  /** How many alerts with a tag are active, or have been resolved. */
  function AlertsWith(alerts: seq<Alert>, active: bool, tag: Tag): nat {
    if alerts == [] then 0
    else
      var n := |alerts| - 1;
      AlertsWith(alerts[..n], active, tag) + One(alerts[n].active == active && AlertTag(alerts[n]) == tag)
  }

  /** How many active thresholds have a tag. */
  function ThresholdsWith(ths: seq<Threshold>, tag: Tag): nat {
    if ths == [] then 0
    else
      var n := |ths| - 1;
      ThresholdsWith(ths[..n], tag) + One(ths[n].active && ThresholdTag(ths[n]) == tag)
  }

  /** The active alerts carry the limits and operators of the active thresholds. */
  ghost predicate Agree(s: State) {
    forall tag :: AlertsWith(s.alerts, true, tag) == ThresholdsWith(s.thresholds, tag)
  }

  /** The tag of the newest active alert of a metric. */
  function NewestTag(alerts: seq<Alert>, metric: string): Option<Tag> {
    if alerts == [] then None
    else
      var a := alerts[|alerts| - 1];
      if a.metric == metric && a.active then Some(AlertTag(a)) else NewestTag(alerts[..|alerts| - 1], metric)
  }

  lemma {:induction false} NewestTagExists(alerts: seq<Alert>, metric: string)
    requires ActiveAlerts(alerts, metric) > 0
    ensures NewestTag(alerts, metric).Some?
  {
    var n := |alerts| - 1;
    if !(alerts[n].metric == metric && alerts[n].active) {
      NewestTagExists(alerts[..n], metric);
    }
  }

  /** Resolving moves that tag from the active alerts to the resolved ones. */
  lemma {:induction false} ResolveMovesTag(alerts: seq<Alert>, metric: string, now: real, tag: Tag)
    requires NewestTag(alerts, metric).Some?
    ensures var after, moved := Resolve(alerts, metric, now), One(NewestTag(alerts, metric) == Some(tag));
            && AlertsWith(after, true, tag) + moved == AlertsWith(alerts, true, tag)
            && AlertsWith(after, false, tag) == AlertsWith(alerts, false, tag) + moved
  {
    var n := |alerts| - 1;
    var after := Resolve(alerts, metric, now);
    if alerts[n].metric == metric && alerts[n].active {
      assert after[..n] == alerts[..n];
    } else {
      ResolveMovesTag(alerts[..n], metric, now, tag);
      assert after[..|after| - 1] == Resolve(alerts[..n], metric, now);
    }
  }

  lemma TriggerAddsTag(alerts: seq<Alert>, th: Threshold, value: real, now: real, tag: Tag)
    ensures var after := Trigger(alerts, th, value, now);
            && AlertsWith(after, true, tag) == AlertsWith(alerts, true, tag) + One(ThresholdTag(th) == tag)
            && AlertsWith(after, false, tag) == AlertsWith(alerts, false, tag)
  {
    assert Trigger(alerts, th, value, now)[..|alerts|] == alerts;
  }

  lemma {:induction false} UpdateTags(ths: seq<Threshold>, i: nat, th: Threshold, tag: Tag)
    requires i < |ths| && ThresholdTag(th) == ThresholdTag(ths[i])
    ensures ThresholdsWith(ths[i := th], tag) + One(ths[i].active && ThresholdTag(th) == tag)
            == ThresholdsWith(ths, tag) + One(th.active && ThresholdTag(th) == tag)
  {
    var n := |ths| - 1;
    if i < n {
      UpdateTags(ths[..n], i, th, tag);
      assert ths[i := th][..n] == ths[..n][i := th];
    } else {
      assert ths[i := th][..n] == ths[..n];
    }
  }

  predicate Starts(th: Threshold, reading: Option<real>, now: real) {
    !th.active && CheckOne(th, reading, now).active
  }

  predicate Ends(th: Threshold, reading: Option<real>, now: real) {
    th.active && !CheckOne(th, reading, now).active
  }

  /** What one threshold's check does to the tags: a start adds one on both sides, an end takes one from each. */
  lemma CheckMovesTags(ths: seq<Threshold>, alerts: seq<Alert>, i: nat, reading: Option<real>, now: real, tag: Tag)
    requires i < |ths| && InStep(State(ths, alerts))
    ensures var th, after := ths[i], AlertsAfter(alerts, ths[i], reading, now);
            var starts := One(Starts(th, reading, now) && ThresholdTag(th) == tag);
            var moved := One(Ends(th, reading, now) && NewestTag(alerts, th.metric) == Some(tag));
            && (Ends(th, reading, now) ==> NewestTag(alerts, th.metric).Some?)
            && ThresholdsWith(ths[i := CheckOne(th, reading, now)], tag) + One(Ends(th, reading, now) && ThresholdTag(th) == tag)
               == ThresholdsWith(ths, tag) + starts
            && AlertsWith(after, true, tag) + moved == AlertsWith(alerts, true, tag) + starts
            && AlertsWith(after, false, tag) == AlertsWith(alerts, false, tag) + moved
  {
    UpdateTags(ths, i, CheckOne(ths[i], reading, now), tag);
    if Starts(ths[i], reading, now) {
      TriggerAddsTag(alerts, ths[i], reading.GetOr(0.0), now, tag);
    } else if Ends(ths[i], reading, now) {
      ActivePositive(ths, i);
      assert ActiveAlerts(alerts, ths[i].metric) == ActiveThresholds(ths, ths[i].metric);
      NewestTagExists(alerts, ths[i].metric);
      ResolveMovesTag(alerts, ths[i].metric, now, tag);
    }
  }

  /** One threshold's check keeps the agreement exactly when an alert that it resolves has the threshold's own tag. */
  lemma CheckKeepsAgreementIff(ths: seq<Threshold>, alerts: seq<Alert>, i: nat, reading: Option<real>, now: real)
    requires i < |ths| && InStep(State(ths, alerts)) && Agree(State(ths, alerts))
    ensures Agree(State(ths[i := CheckOne(ths[i], reading, now)], AlertsAfter(alerts, ths[i], reading, now)))
            <==> (Ends(ths[i], reading, now) ==> NewestTag(alerts, ths[i].metric) == Some(ThresholdTag(ths[i])))
  {
    var th' := CheckOne(ths[i], reading, now);
    var after := State(ths[i := th'], AlertsAfter(alerts, ths[i], reading, now));
    forall tag
      ensures AlertsWith(after.alerts, true, tag) == ThresholdsWith(after.thresholds, tag)
              <==> !Ends(ths[i], reading, now)
                   || (NewestTag(alerts, ths[i].metric) == Some(tag) <==> ThresholdTag(ths[i]) == tag)
    {
      assert AlertsWith(alerts, true, tag) == ThresholdsWith(ths, tag);
      CheckMovesTags(ths, alerts, i, reading, now, tag);
    }
    if Agree(after) && Ends(ths[i], reading, now) {
      var own := ThresholdTag(ths[i]);
      assert AlertsWith(after.alerts, true, own) == ThresholdsWith(after.thresholds, own);
    }
  }

  /** The state in the middle of a check, before its `i`-th threshold. */
  lemma NextCheck(s: State, readings: seq<Option<real>>, now: real, i: nat) returns (t: State)
    requires i < |s.thresholds| && InStep(s)
    ensures t == CheckFirst(s, readings, now, i) && InStep(t)
    ensures |t.thresholds| == |s.thresholds| && t.thresholds[i] == s.thresholds[i]
    ensures var th, reading := s.thresholds[i], ReadingFor(readings, i);
            CheckFirst(s, readings, now, i + 1)
            == State(t.thresholds[i := CheckOne(th, reading, now)], AlertsAfter(t.alerts, th, reading, now))
  {
    t := CheckFirst(s, readings, now, i);
    CheckFirstKeepsInStep(s, readings, now, i);
    CheckNext(s, readings, now, i, t);
  }

  /** How many of the first `n` thresholds end in a check and have a tag. */
  function EndedFirst(ths: seq<Threshold>, readings: seq<Option<real>>, now: real, n: nat, tag: Tag): nat
    requires n <= |ths|
  {
    if n == 0 then 0
    else EndedFirst(ths, readings, now, n - 1, tag)
         + One(Ends(ths[n - 1], ReadingFor(readings, n - 1), now) && ThresholdTag(ths[n - 1]) == tag)
  }

  /** How often a threshold with a tag has ended in a run. */
  function Ended(s: State, events: seq<Event>, tag: Tag): nat {
    if events == [] then 0
    else
      var n := |events| - 1;
      var ths := Run(s, events[..n]).thresholds;
      Ended(s, events[..n], tag)
      + (match events[n]
         case Add(_) => 0
         case Check(readings, now) => EndedFirst(ths, readings, now, |ths|, tag))
  }

  /** What alerts have beyond active thresholds. */
  function Surplus(s: State, tag: Tag): int {
    AlertsWith(s.alerts, true, tag) + AlertsWith(s.alerts, false, tag) - ThresholdsWith(s.thresholds, tag)
  }

  lemma {:induction false} CheckFirstConserves(s: State, readings: seq<Option<real>>, now: real, n: nat, tag: Tag)
    requires n <= |s.thresholds| && InStep(s)
    ensures Surplus(CheckFirst(s, readings, now, n), tag) == Surplus(s, tag) + EndedFirst(s.thresholds, readings, now, n, tag)
  {
    if n > 0 {
      CheckFirstConserves(s, readings, now, n - 1, tag);
      NextConserves(s, readings, now, n - 1, tag);
    }
  }

  lemma NextConserves(s: State, readings: seq<Option<real>>, now: real, i: nat, tag: Tag)
    requires i < |s.thresholds| && InStep(s)
    ensures Surplus(CheckFirst(s, readings, now, i + 1), tag)
            == Surplus(CheckFirst(s, readings, now, i), tag)
               + One(Ends(s.thresholds[i], ReadingFor(readings, i), now) && ThresholdTag(s.thresholds[i]) == tag)
  {
    var t := NextCheck(s, readings, now, i);
    CheckMovesTags(t.thresholds, t.alerts, i, ReadingFor(readings, i), now, tag);
  }

  /** In every run the alerts, active and resolved, have the tags of the active thresholds and of those that have ended. */
  lemma {:induction false} TagsAreConserved(events: seq<Event>, tag: Tag)
    requires AddsInactive(events)
    ensures var s := Run(State([], []), events);
            AlertsWith(s.alerts, true, tag) + AlertsWith(s.alerts, false, tag)
            == ThresholdsWith(s.thresholds, tag) + Ended(State([], []), events, tag)
  {
    if events != [] {
      var n := |events| - 1;
      TagsAreConserved(events[..n], tag);
      AlertsStayInStep(events[..n]);
      var t := Run(State([], []), events[..n]);
      match events[n]
      case Add(th) =>
        assert Run(State([], []), events).thresholds[..|t.thresholds|] == t.thresholds;
      case Check(readings, now) =>
        CheckFirstConserves(t, readings, now, |t.thresholds|, tag);
    }
  }

  /** The resolved alerts carry the limits and operators of the thresholds that have ended. */
  ghost predicate OwnAlertsResolved(alerts: seq<Alert>, events: seq<Event>) {
    forall tag :: AlertsWith(alerts, false, tag) == Ended(State([], []), events, tag)
  }

  /**
   In every run the active alerts carry the limits and operators of the active thresholds exactly when the
   alerts that have been resolved carry those of the thresholds that have ended.
   */
  lemma AgreeIffOwnAlertsResolved(events: seq<Event>, s: State)
    requires AddsInactive(events) && s == Run(State([], []), events)
    ensures Agree(s) <==> OwnAlertsResolved(s.alerts, events)
  {
    if Agree(s) {
      forall tag ensures AlertsWith(s.alerts, false, tag) == Ended(State([], []), events, tag) {
        TagsAreConserved(events, tag);
        assert AlertsWith(s.alerts, true, tag) == ThresholdsWith(s.thresholds, tag);
      }
    }
    if OwnAlertsResolved(s.alerts, events) {
      forall tag ensures AlertsWith(s.alerts, true, tag) == ThresholdsWith(s.thresholds, tag) {
        TagsAreConserved(events, tag);
        assert AlertsWith(s.alerts, false, tag) == Ended(State([], []), events, tag);
      }
    }
  }

  /** All thresholds of a metric have one limit and one operator. */
  predicate OneTagPerMetric(ths: seq<Threshold>, alerts: seq<Alert>, tagOf: string -> Tag) {
    && (forall i :: 0 <= i < |ths| ==> ThresholdTag(ths[i]) == tagOf(ths[i].metric))
    && (forall i :: 0 <= i < |alerts| ==> AlertTag(alerts[i]) == tagOf(alerts[i].metric))
  }

  lemma {:induction false} NewestTagIs(alerts: seq<Alert>, metric: string, tagOf: string -> Tag)
    requires forall i :: 0 <= i < |alerts| ==> AlertTag(alerts[i]) == tagOf(alerts[i].metric)
    ensures NewestTag(alerts, metric).Some? ==> NewestTag(alerts, metric) == Some(tagOf(metric))
  {
    if alerts != [] {
      NewestTagIs(alerts[..|alerts| - 1], metric, tagOf);
    }
  }

  lemma {:induction false} ResolveKeepsTags(alerts: seq<Alert>, metric: string, now: real)
    ensures |Resolve(alerts, metric, now)| == |alerts|
    ensures forall i :: 0 <= i < |alerts| ==> AlertTag(Resolve(alerts, metric, now)[i]) == AlertTag(alerts[i])
  {
    if alerts != [] {
      ResolveKeepsTags(alerts[..|alerts| - 1], metric, now);
    }
  }

  ghost predicate OneTagged(s: State, tagOf: string -> Tag) {
    Agree(s) && OneTagPerMetric(s.thresholds, s.alerts, tagOf)
  }

  lemma OneTagCheck(s: State, i: nat, reading: Option<real>, now: real, tagOf: string -> Tag)
    requires i < |s.thresholds| && InStep(s) && OneTagged(s, tagOf)
    ensures var th := s.thresholds[i];
            OneTagged(State(s.thresholds[i := CheckOne(th, reading, now)], AlertsAfter(s.alerts, th, reading, now)), tagOf)
  {
    var th := s.thresholds[i];
    CheckMovesTags(s.thresholds, s.alerts, i, reading, now, ThresholdTag(th));
    NewestTagIs(s.alerts, th.metric, tagOf);
    CheckKeepsAgreementIff(s.thresholds, s.alerts, i, reading, now);
    ResolveKeepsTags(s.alerts, th.metric, now);
  }

  lemma {:induction false} OneTagChecks(s: State, readings: seq<Option<real>>, now: real, n: nat, tagOf: string -> Tag, t: State)
    requires n <= |s.thresholds| && InStep(s) && OneTagged(s, tagOf) && t == CheckFirst(s, readings, now, n)
    ensures OneTagged(t, tagOf)
  {
    if n > 0 {
      var before := CheckFirst(s, readings, now, n - 1);
      OneTagChecks(s, readings, now, n - 1, tagOf, before);
      OneTagNext(s, readings, now, n - 1, tagOf, before, t);
    }
  }

  lemma OneTagNext(s: State, readings: seq<Option<real>>, now: real, i: nat, tagOf: string -> Tag, before: State, t: State)
    requires i < |s.thresholds| && InStep(s) && OneTagged(before, tagOf)
    requires before == CheckFirst(s, readings, now, i) && t == CheckFirst(s, readings, now, i + 1)
    ensures OneTagged(t, tagOf)
  {
    var same := NextCheck(s, readings, now, i);
    OneTagCheck(before, i, ReadingFor(readings, i), now, tagOf);
  }

  /** Where no two thresholds of a metric differ in limit or operator, the active alerts are those of the active thresholds. */
  lemma {:induction false} OneTagPerMetricAgrees(events: seq<Event>, tagOf: string -> Tag)
    requires AddsInactive(events)
    requires forall i :: 0 <= i < |events| && events[i].Add? ==> ThresholdTag(events[i].th) == tagOf(events[i].th.metric)
    ensures var s := Run(State([], []), events); Agree(s) && OneTagPerMetric(s.thresholds, s.alerts, tagOf)
  {
    if events != [] {
      var n := |events| - 1;
      OneTagPerMetricAgrees(events[..n], tagOf);
      AlertsStayInStep(events[..n]);
      var t := Run(State([], []), events[..n]);
      match events[n]
      case Add(th) =>
        InactiveAgrees(t, th);
      case Check(readings, now) =>
        OneTagChecks(t, readings, now, |t.thresholds|, tagOf, Run(State([], []), events));
    }
  }

  lemma InactiveAgrees(s: State, th: Threshold)
    requires Agree(s) && !th.active
    ensures Agree(Step(s, Add(th)))
  {
    forall tag ensures AlertsWith(s.alerts, true, tag) == ThresholdsWith(s.thresholds + [th], tag) {
      assert AlertsWith(s.alerts, true, tag) == ThresholdsWith(s.thresholds, tag);
      assert (s.thresholds + [th])[..|s.thresholds|] == s.thresholds;
    }
  }

  // ----- Two limits for one metric -----

  const Slow := Threshold("cpu", 80.0, "gt", 60.0, None, false)
  const Quick := Threshold("cpu", 95.0, "gt", 0.0, None, false)

  function Both(value: real, now: real): Event {
    Check([Some(value), Some(value)], now)
  }

  lemma OnTwo(a: Threshold, b: Threshold, alerts: seq<Alert>, value: real, now: real)
    ensures var ths := [a, b];
            Step(State(ths, alerts), Both(value, now))
            == State([CheckOne(a, Some(value), now), CheckOne(b, Some(value), now)],
                     AlertsAfter(AlertsAfter(alerts, a, Some(value), now), b, Some(value), now))
  {
    var s, readings := State([a, b], alerts), [Some(value), Some(value)];
    assert CheckFirst(s, readings, now, 0) == s;
    assert CheckFirst(s, readings, now, 1).alerts == AlertsAfter(alerts, a, Some(value), now);
    assert CheckFirst(s, readings, now, 2).alerts
        == AlertsAfter(AlertsAfter(alerts, a, Some(value), now), b, Some(value), now);
  }

  lemma {:induction false} RunMore(s: State, events: seq<Event>, ev: Event)
    ensures Run(s, events + [ev]) == Step(Run(s, events), ev)
  {
    assert (events + [ev])[..|events|] == events;
  }

  const OfSlow := Alert("cpu", 80.0, 96.0, "gt", 61.0, true, None)
  const OfQuick := Alert("cpu", 95.0, 96.0, "gt", 1.0, true, None)

  /** Until the quick threshold ends: both are active, and the slow one's alert is the newer. */
  lemma BothActive()
    ensures Run(State([], []), [Add(Slow)] + [Add(Quick)] + [Both(96.0, 1.0)] + [Both(96.0, 61.0)])
            == State([Slow.(violationStart := Some(1.0), active := true), Quick.(violationStart := Some(1.0), active := true)],
                     [OfQuick, OfSlow])
  {
    var s0 := State([], []);
    var slow, quick := Slow.(violationStart := Some(1.0)), Quick.(violationStart := Some(1.0), active := true);
    assert Run(s0, []) == s0 && [] + [Add(Slow)] == [Add(Slow)];
    RunMore(s0, [], Add(Slow));
    RunMore(s0, [Add(Slow)], Add(Quick));
    RunMore(s0, [Add(Slow)] + [Add(Quick)], Both(96.0, 1.0));
    RunMore(s0, [Add(Slow)] + [Add(Quick)] + [Both(96.0, 1.0)], Both(96.0, 61.0));
    assert Run(s0, [Add(Slow)] + [Add(Quick)]) == State([Slow, Quick], []);
    OnTwo(Slow, Quick, [], 96.0, 1.0);
    assert Step(State([Slow, Quick], []), Both(96.0, 1.0)) == State([slow, quick], [OfQuick]);
    OnTwo(slow, quick, [OfQuick], 96.0, 61.0);
  }

  lemma TwoCounts(a: Alert, b: Alert, x: Threshold, y: Threshold, tag: Tag)
    ensures AlertsWith([a, b], true, tag) == One(a.active && AlertTag(a) == tag) + One(b.active && AlertTag(b) == tag)
    ensures ThresholdsWith([x, y], tag) == One(x.active && ThresholdTag(x) == tag) + One(y.active && ThresholdTag(y) == tag)
  {
    assert [a, b][..1] == [a] && [x, y][..1] == [x];
    assert AlertsWith([a], true, tag) == One(a.active && AlertTag(a) == tag);
    assert ThresholdsWith([x], tag) == One(x.active && ThresholdTag(x) == tag);
  }

  lemma Disagree(a: Alert, b: Alert, x: Threshold, y: Threshold)
    requires a.active && !b.active && !y.active && AlertTag(a) != ThresholdTag(x)
    ensures !Agree(State([x, y], [a, b]))
  {
    var tag := AlertTag(a);
    TwoCounts(a, b, x, y, tag);
    assert AlertsWith([a, b], true, tag) != ThresholdsWith([x, y], tag);
  }

  /** The quick threshold ends, and the alert of the slow one, which is newer, is resolved in its place. */
  lemma WrongAlertIsResolved()
    ensures var s := Run(State([], []), [Add(Slow)] + [Add(Quick)] + [Both(96.0, 1.0)] + [Both(96.0, 61.0)] + [Both(90.0, 62.0)]);
            && s == State([Slow.(violationStart := Some(1.0), active := true), Quick],
                          [OfQuick, OfSlow.(active := false, resolvedAt := Some(62.0))])
            && !Agree(s)
  {
    var slow, quick := Slow.(violationStart := Some(1.0), active := true), Quick.(violationStart := Some(1.0), active := true);
    BothActive();
    RunMore(State([], []), [Add(Slow)] + [Add(Quick)] + [Both(96.0, 1.0)] + [Both(96.0, 61.0)], Both(90.0, 62.0));
    OnTwo(slow, quick, [OfQuick, OfSlow], 90.0, 62.0);
    assert [OfQuick, OfSlow][..1] == [OfQuick];
    Disagree(OfQuick, OfSlow.(active := false, resolvedAt := Some(62.0)), slow, Quick);
  }

  // ----- Debouncing -----

  datatype Sample = Sample(reading: Option<real>, now: real)

  function RunOne(th: Threshold, history: seq<Sample>): Threshold {
    if history == [] then th
    else
      var n := |history| - 1;
      CheckOne(RunOne(th, history[..n]), history[n].reading, history[n].now)
  }

  /**
   The clock readings of the current unbroken streak of satisfied checks. Checks without a value
   neither extend nor break it.
   */
  function CurrentStreak(th: Threshold, history: seq<Sample>): seq<real> {
    if history == [] then []
    else
      var n := |history| - 1;
      var before, sample := CurrentStreak(th, history[..n]), history[n];
      if sample.reading.None? then before
      else if Met(th, sample.reading) then before + [sample.now]
      else []
  }

  /** Where the program sees a streak begin: at its first reading that is not zero, or at zero if there is none. */
  function EffectiveStart(streak: seq<real>): real {
    if streak == [] then 0.0
    else if streak[0] != 0.0 then streak[0]
    else EffectiveStart(streak[1..])
  }

  predicate AllZero(streak: seq<real>) {
    forall k :: 0 <= k < |streak| ==> streak[k] == 0.0
  }

  lemma {:induction false} EffectiveStartIsFirst(streak: seq<real>) returns (k: nat)
    ensures AllZero(streak) ==> EffectiveStart(streak) == 0.0
    ensures !AllZero(streak) ==>
              k < |streak| && streak[k] == EffectiveStart(streak) != 0.0 && AllZero(streak[..k])
  {
    k := 0;
    if streak != [] && streak[0] == 0.0 {
      var i := EffectiveStartIsFirst(streak[1..]);
      if !AllZero(streak[1..]) {
        k := i + 1;
        assert streak[..k] == [streak[0]] + streak[1..][..i];
      } else {
        assert streak == [streak[0]] + streak[1..];
      }
    }
  }

  /** Some check of the streak came at least `duration` after the streak's start, as the program saw it then. */
  ghost predicate Spans(streak: seq<real>, duration: real) {
    exists j :: 0 <= j < |streak| && SpansAt(streak, j, duration)
  }

  predicate SpansAt(streak: seq<real>, j: nat, duration: real)
    requires j < |streak|
  {
    streak[j] - EffectiveStart(streak[..j + 1]) >= duration
  }

  /** The reading is beyond the limit, in the sense of the five operators that there are; any other is never met. */
  predicate Beyond(value: real, limit: real, op: string) {
    || (op == "gt" && value > limit) || (op == "ge" && value >= limit)
    || (op == "lt" && value < limit) || (op == "le" && value <= limit)
    || (op == "eq" && value == limit)
  }

  /** A check with a reading starts or continues a streak exactly when the reading is beyond the limit; otherwise it ends all. */
  lemma CheckStreaksIff(th: Threshold, value: real, now: real)
    ensures var th' := CheckOne(th, Some(value), now);
            && (th'.violationStart.Some? <==> Beyond(value, th.limit, th.op))
            && (!Beyond(value, th.limit, th.op) ==> !th'.active)
  {
  }

  predicate IsNew(th: Threshold) {
    th.violationStart == None && !th.active
  }

  lemma {:induction false} EffectiveStartSnoc(streak: seq<real>, now: real)
    ensures EffectiveStart(streak + [now]) == if EffectiveStart(streak) != 0.0 then EffectiveStart(streak) else now
  {
    if streak != [] && streak[0] == 0.0 {
      assert (streak + [now])[1..] == streak[1..] + [now];
      EffectiveStartSnoc(streak[1..], now);
    } else if streak == [] {
      assert ([] + [now])[1..] == [];
    }
  }

  lemma SpansSnoc(streak: seq<real>, now: real, duration: real)
    ensures Spans(streak + [now], duration)
            <==> Spans(streak, duration) || now - EffectiveStart(streak + [now]) >= duration
  {
    var longer, n := streak + [now], |streak|;
    assert longer[..n + 1] == longer && longer[n] == now;
    assert SpansAt(longer, n, duration) <==> now - EffectiveStart(longer) >= duration;
    forall j | 0 <= j < n ensures SpansAt(longer, j, duration) == SpansAt(streak, j, duration) {
      assert longer[..j + 1] == streak[..j + 1];
    }
    if Spans(streak, duration) {
      var j :| 0 <= j < n && SpansAt(streak, j, duration);
      assert SpansAt(longer, j, duration);
    }
  }

  /** For every history: a threshold is active exactly when its current streak spans its duration. */
  lemma {:induction false} ActiveIffStreakSpansDuration(th: Threshold, history: seq<Sample>)
    requires IsNew(th)
    ensures var streak, th' := CurrentStreak(th, history), RunOne(th, history);
            && th' == th.(violationStart := th'.violationStart, active := th'.active)
            && th'.violationStart == (if streak == [] then None else Some(EffectiveStart(streak)))
            && (th'.active <==> Spans(streak, th.duration))
  {
    if history != [] {
      var n := |history| - 1;
      ActiveIffStreakSpansDuration(th, history[..n]);
      var before, sample := CurrentStreak(th, history[..n]), history[n];
      if Met(th, sample.reading) {
        EffectiveStartSnoc(before, sample.now);
        SpansSnoc(before, sample.now, th.duration);
      }
    }
  }

  predicate NeverBack(streak: seq<real>) {
    forall j, k :: 0 <= j < k < |streak| ==> streak[j] <= streak[k]
  }

  /** With a clock that never goes back, only the latest check of a streak matters. */
  lemma SpansAtTheEnd(streak: seq<real>, duration: real)
    requires streak != [] && NeverBack(streak)
    ensures Spans(streak, duration) <==> streak[|streak| - 1] - EffectiveStart(streak) >= duration
  {
    var n := |streak| - 1;
    assert streak[..n + 1] == streak;
    assert SpansAt(streak, n, duration) <==> streak[n] - EffectiveStart(streak) >= duration;
    forall j | 0 <= j < n && SpansAt(streak, j, duration) ensures SpansAt(streak, n, duration) {
      LaterSpans(streak, j, duration);
    }
  }

  lemma LaterSpans(streak: seq<real>, j: nat, duration: real)
    requires j < |streak| && NeverBack(streak) && SpansAt(streak, j, duration)
    ensures streak[|streak| - 1] - EffectiveStart(streak) >= duration
  {
    var part, n := streak[..j + 1], |streak| - 1;
    assert j < n ==> streak[j] <= streak[n];
    var k := EffectiveStartIsFirst(part);
    if !AllZero(part) {
      assert AllZero(streak[..k]) by {
        assert streak[..k] == part[..k];
      }
      FirstNonZero(streak, k);
    } else {
      assert part[j] == 0.0;
      var m := EffectiveStartIsFirst(streak);
      if !AllZero(streak) && m < n {
        assert streak[m] <= streak[n];
      }
    }
  }

  lemma {:induction false} FirstNonZero(streak: seq<real>, k: nat)
    requires k < |streak| && streak[k] != 0.0 && AllZero(streak[..k])
    ensures EffectiveStart(streak) == streak[k]
  {
    if k > 0 {
      assert streak[..k][0] == 0.0;
      assert streak[1..][..k - 1] == streak[..k][1..];
      FirstNonZero(streak[1..], k - 1);
    }
  }

  /**
   What is meant is the time since the first check of the streak. With a clock that never goes back the
   program decides by that time exactly when not both: the streak begins at reading zero, and the
   duration has passed since zero but not since the first reading other than zero.
   */
  lemma ZeroStartIsForgotten(streak: seq<real>, duration: real)
    requires streak != [] && NeverBack(streak)
    ensures var latest := streak[|streak| - 1];
            (Spans(streak, duration) <==> latest - streak[0] >= duration)
            <==> !(streak[0] == 0.0 && latest - EffectiveStart(streak) < duration <= latest)
  {
    SpansAtTheEnd(streak, duration);
    var k := EffectiveStartIsFirst(streak);
    if streak[0] == 0.0 && !AllZero(streak) {
      assert k != 0 && streak[0] <= streak[k];
    }
  }

  /** With a clock that never goes back and a streak that does not begin at zero, the time since its first check decides. */
  lemma ActiveIffTimeSinceFirstCheck(th: Threshold, history: seq<Sample>)
    requires IsNew(th)
    requires var streak := CurrentStreak(th, history); streak != [] && NeverBack(streak) && streak[0] != 0.0
    ensures var streak := CurrentStreak(th, history);
            RunOne(th, history).active <==> streak[|streak| - 1] - streak[0] >= th.duration
  {
    ActiveIffStreakSpansDuration(th, history);
    ZeroStartIsForgotten(CurrentStreak(th, history), th.duration);
  }

  /** What the manager's `i`-th threshold saw in a run of events. */
  function HistoryOf(events: seq<Event>, i: nat): seq<Sample> {
    if events == [] then []
    else
      var n := |events| - 1;
      HistoryOf(events[..n], i)
      + (match events[n]
         case Add(_) => []
         case Check(readings, now) => [Sample(if i < |readings| then readings[i] else None, now)])
  }

  /** In the manager each threshold evolves by its own readings alone, whatever its neighbours do. */
  lemma {:induction false} ThresholdsAreIndependent(s: State, events: seq<Event>, i: nat)
    requires i < |s.thresholds| && InStep(s) && AddsInactive(events)
    ensures InStep(Run(s, events)) && i < |Run(s, events).thresholds|
    ensures Run(s, events).thresholds[i] == RunOne(s.thresholds[i], HistoryOf(events, i))
  {
    if events != [] {
      var n := |events| - 1;
      ThresholdsAreIndependent(s, events[..n], i);
      var t := Run(s, events[..n]);
      match events[n]
      case Add(th) =>
        var t' := Step(t, events[n]);
        forall metric ensures ActiveAlerts(t'.alerts, metric) == ActiveThresholds(t'.thresholds, metric) {
          assert t'.thresholds[..|t.thresholds|] == t.thresholds;
          assert ActiveAlerts(t.alerts, metric) == ActiveThresholds(t.thresholds, metric);
        }
        assert HistoryOf(events, i) == HistoryOf(events[..n], i);
      case Check(readings, now) =>
        CheckFirstKeepsInStep(t, readings, now, |t.thresholds|);
        var h := HistoryOf(events[..n], i);
        var sample := Sample(ReadingFor(readings, i), now);
        assert HistoryOf(events, i) == h + [sample] && (h + [sample])[..|h|] == h;
    }
  }

  // ----- The object -----

  class AlertManager {
    var thresholds: seq<Threshold>
    var alerts: seq<Alert>

    function View(): State
      reads this
    {
      State(thresholds, alerts)
    }

    constructor ()
      ensures View() == State([], [])
    {
      thresholds, alerts := [], [];
    }

    method AddThreshold(th: Threshold)
      modifies `thresholds
      ensures View() == Step(old(View()), Add(th))
    {
      thresholds := thresholds + [th];
    }

    method CheckThresholds(readings: seq<Option<real>>, now: real)
      modifies this
      ensures View() == Step(old(View()), Check(readings, now))
    {
      ghost var before := View();
      for i := 0 to |thresholds|
        invariant |thresholds| == |before.thresholds|
        invariant View() == CheckFirst(before, readings, now, i)
        invariant thresholds == CheckedThresholds(before.thresholds, readings, now, i)
      {
        ghost var s := View();
        CheckSingleThreshold(i, ReadingFor(readings, i), now);
        CheckNext(before, readings, now, i, s);
      }
    }

    method CheckSingleThreshold(i: nat, reading: Option<real>, now: real)
      requires i < |thresholds|
      modifies this
      ensures thresholds == old(thresholds)[i := CheckOne(old(thresholds)[i], reading, now)]
      ensures alerts == AlertsAfter(old(alerts), old(thresholds)[i], reading, now)
    {
      if reading.None? {
        return;
      }
      var th := thresholds[i];
      if Evaluate(reading.value, th.limit, th.op) {
        if th.violationStart.None? || th.violationStart.value == 0.0 {
          th := th.(violationStart := Some(now));
        }
        if now - th.violationStart.value >= th.duration {
          if !th.active {
            TriggerAlert(th, reading.value, now);
            th := th.(active := true);
          }
        }
      } else {
        th := th.(violationStart := None);
        if th.active {
          ResolveAlert(th.metric, now);
          th := th.(active := false);
        }
      }
      thresholds := thresholds[i := th];
    }

    method TriggerAlert(th: Threshold, value: real, now: real)
      modifies `alerts
      ensures alerts == Trigger(old(alerts), th, value, now)
    {
      alerts := alerts + [Alert(th.metric, th.limit, value, th.op, now, true, None)];
    }

    /** Searches backwards and stops at the first active alert of the metric. */
    method ResolveAlert(metric: string, now: real)
      modifies `alerts
      ensures alerts == Resolve(old(alerts), metric, now)
    {
      var i := |alerts|;
      assert alerts[..i] == alerts;
      while i > 0
        invariant 0 <= i <= |alerts| && alerts == old(alerts)
        invariant Resolve(alerts, metric, now) == Resolve(alerts[..i], metric, now) + alerts[i..]
      {
        i := i - 1;
        assert alerts[..i + 1][..i] == alerts[..i] && alerts[i..] == [alerts[i]] + alerts[i + 1..];
        if alerts[i].metric == metric && alerts[i].active {
          alerts := alerts[i := alerts[i].(active := false, resolvedAt := Some(now))];
          return;
        }
      }
    }
  }
}
