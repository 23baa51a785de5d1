/**
 The LRU cache with time-to-live of app/core/lru_cache.py.

 The ordered dictionary is a sequence of entries, least recently used first. Every operation
 takes the clock reading it sees. `Step` is the specification of one operation; `LruCache`
 is the object that updates its entries and counters in place and is proved against it.
 */
module Lru {
  import opened Prelude

  /** A cached value; `Nil` is the value that a lookup also returns for a miss. */
  datatype Value = Nil | Item(id: int)

  datatype Entry = Entry(key: string, value: Value, stamp: real, ttl: Option<real>)

  datatype Stats = Stats(hits: nat, misses: nat, sets: nat, deletes: nat, evictions: nat, expirations: nat)

  datatype Config = Config(maxsize: int, ttl: Option<real>, enableStats: bool)

  datatype State = State(entries: seq<Entry>, stats: Stats)

  datatype Op =
    | Get(key: string)
    | Set(key: string, value: Value, ttl: Option<real>)
    | Delete(key: string)
    | Contains(key: string)
    | CleanupExpired
    | Clear

  datatype Output =
    | Miss
    | Hit(value: Value)
    | Stored
    | KeyError  // evicting from an empty dictionary
    | Answer(yes: bool)
    | Count(n: nat)
    | Done

  datatype Event = Event(op: Op, now: real)

  const EMPTY := State([], Stats(0, 0, 0, 0, 0, 0))

  function EffectiveTtl(cfg: Config, e: Entry): Option<real> {
    if e.ttl.Some? then e.ttl else cfg.ttl
  }

  predicate Expired(cfg: Config, e: Entry, now: real) {
    EffectiveTtl(cfg, e).Some? && now - e.stamp > EffectiveTtl(cfg, e).value
  }

  function KeyIsNot(key: string): Entry -> bool {
    (e: Entry) => e.key != key
  }

  function StillLive(cfg: Config, now: real): Entry -> bool {
    (e: Entry) => !Expired(cfg, e, now)
  }

  function Without(es: seq<Entry>, key: string): seq<Entry> {
    Filter(KeyIsNot(key), es)
  }

  function Lookup(es: seq<Entry>, key: string): (r: Option<Entry>)
    ensures r.Some? ==> r.value in es && r.value.key == key
    ensures r.None? ==> forall e :: e in es ==> e.key != key
  {
    if es == [] then None else if es[0].key == key then Some(es[0]) else Lookup(es[1..], key)
  }

  ghost predicate DistinctKeys(es: seq<Entry>) {
    forall i, j :: 0 <= i < j < |es| ==> es[i].key != es[j].key
  }

  /** The representation invariant: one entry a key, never more than `maxsize` of them. */
  ghost predicate Valid(cfg: Config, s: State) {
    DistinctKeys(s.entries) && (s.entries == [] || |s.entries| <= cfg.maxsize)
  }

  // ----- Specification of the operations -----

  function Bump(cfg: Config, before: Stats, after: Stats): Stats {
    if cfg.enableStats then after else before
  }

  function GetStep(cfg: Config, s: State, key: string, now: real): (State, Output) {
    var st := s.stats;
    match Lookup(s.entries, key)
    case None => (s.(stats := Bump(cfg, st, st.(misses := st.misses + 1))), Miss)
    case Some(e) =>
      if Expired(cfg, e, now) then
        (State(Without(s.entries, key),
               Bump(cfg, st, st.(expirations := st.expirations + 1, misses := st.misses + 1))), Miss)
      else
        (State(Without(s.entries, key) + [e], Bump(cfg, st, st.(hits := st.hits + 1))), Hit(e.value))
  }

  function ContainsStep(cfg: Config, s: State, key: string, now: real): (State, Output) {
    var st := s.stats;
    match Lookup(s.entries, key)
    case None => (s, Answer(false))
    case Some(e) =>
      if Expired(cfg, e, now) then
        (State(Without(s.entries, key), Bump(cfg, st, st.(expirations := st.expirations + 1))), Answer(false))
      else
        (State(Without(s.entries, key) + [e], st), Answer(true))
  }

  function SetStep(cfg: Config, s: State, key: string, value: Value, ttl: Option<real>, now: real): (State, Output) {
    var st := s.stats;
    var rest := Without(s.entries, key);
    if |rest| < cfg.maxsize then
      (State(rest + [Entry(key, value, now, ttl)], Bump(cfg, st, st.(sets := st.sets + 1))), Stored)
    else if rest == [] then
      (s.(entries := rest), KeyError)
    else
      (State(rest[1..] + [Entry(key, value, now, ttl)],
             Bump(cfg, st, st.(evictions := st.evictions + 1, sets := st.sets + 1))), Stored)
  }

  function DeleteStep(cfg: Config, s: State, key: string): (State, Output) {
    var st := s.stats;
    if Lookup(s.entries, key).Some? then
      (State(Without(s.entries, key), Bump(cfg, st, st.(deletes := st.deletes + 1))), Answer(true))
    else
      (s, Answer(false))
  }

  function CleanupStep(cfg: Config, s: State, now: real): (State, Output) {
    var live := Filter(StillLive(cfg, now), s.entries);
    var n := |s.entries| - |live|;
    (State(live, Bump(cfg, s.stats, s.stats.(expirations := s.stats.expirations + n))), Count(n))
  }

  function Step(cfg: Config, s: State, op: Op, now: real): (State, Output) {
    match op
    case Get(key) => GetStep(cfg, s, key, now)
    case Set(key, value, ttl) => SetStep(cfg, s, key, value, ttl, now)
    case Delete(key) => DeleteStep(cfg, s, key)
    case Contains(key) => ContainsStep(cfg, s, key, now)
    case CleanupExpired => CleanupStep(cfg, s, now)
    case Clear => (s.(entries := []), Done)
  }

  /** The state after a trace, starting from an empty cache. */
  function Run(cfg: Config, trace: seq<Event>): State {
    if trace == [] then EMPTY
    else
      var last := trace[|trace| - 1];
      Step(cfg, Run(cfg, trace[..|trace| - 1]), last.op, last.now).0
  }

  /** What the `i`-th operation of a trace returned. */
  function OutputAt(cfg: Config, trace: seq<Event>, i: nat): Output
    requires i < |trace|
  {
    Step(cfg, Run(cfg, trace[..i]), trace[i].op, trace[i].now).1
  }

  // ----- The invariant -----

  lemma {:induction false} DistinctFilter(keep: Entry -> bool, es: seq<Entry>)
    requires DistinctKeys(es)
    ensures DistinctKeys(Filter(keep, es))
  {
    if es != [] {
      DistinctFilter(keep, es[1..]);
      forall e | e in Filter(keep, es[1..]) ensures e.key != es[0].key {
        assert e in es[1..];
      }
    }
  }

  lemma {:induction false} WithoutKey(es: seq<Entry>, key: string)
    requires DistinctKeys(es)
    ensures DistinctKeys(Without(es, key))
    ensures |Without(es, key)| == |es| - (if Lookup(es, key).Some? then 1 else 0)
    ensures Lookup(es, key).None? ==> Without(es, key) == es
  {
    DistinctFilter(KeyIsNot(key), es);
    if es != [] {
      if es[0].key == key {
        FilterAll(KeyIsNot(key), es[1..]);
      } else {
        WithoutKey(es[1..], key);
      }
    }
  }

  lemma LookupUnique(es: seq<Entry>, e: Entry)
    requires DistinctKeys(es) && e in es
    ensures Lookup(es, e.key) == Some(e)
  {
  }

  lemma DistinctAppend(es: seq<Entry>, e: Entry)
    requires DistinctKeys(es) && forall x :: x in es ==> x.key != e.key
    ensures DistinctKeys(es + [e])
    ensures es != [] ==> DistinctKeys(es[1..] + [e])
  {
    forall i | 0 <= i < |es| ensures es[i].key != e.key {
      assert es[i] in es;
    }
  }

  lemma StepKeepsValid(cfg: Config, s: State, op: Op, now: real)
    requires Valid(cfg, s)
    ensures Valid(cfg, Step(cfg, s, op, now).0)
  {
    if op.Get? || op.Set? || op.Delete? || op.Contains? {
      WithoutKey(s.entries, op.key);
      if op.Set? {
        DistinctAppend(Without(s.entries, op.key), Entry(op.key, op.value, now, op.ttl));
      } else if Lookup(s.entries, op.key).Some? {
        DistinctAppend(Without(s.entries, op.key), Lookup(s.entries, op.key).value);
      }
    } else if op.CleanupExpired? {
      DistinctFilter(StillLive(cfg, now), s.entries);
    }
  }

  lemma {:induction false} RunValid(cfg: Config, trace: seq<Event>)
    ensures Valid(cfg, Run(cfg, trace))
  {
    if trace != [] {
      var last := trace[|trace| - 1];
      RunValid(cfg, trace[..|trace| - 1]);
      StepKeepsValid(cfg, Run(cfg, trace[..|trace| - 1]), last.op, last.now);
    }
  }

  // ----- Inclusion: a larger cache never does worse -----

  /** The simulation between a small cache and a large one that saw the same operations. */
  ghost predicate Included(small: Config, s: State, large: Config, l: State) {
    && Valid(small, s) && Valid(large, l)
    && Subsequence(s.entries, l.entries)
    && |l.entries| - |s.entries| <= large.maxsize - small.maxsize
    && s.stats.hits <= l.stats.hits
  }

  ghost predicate Comparable(small: Config, large: Config) {
    && 1 <= small.maxsize <= large.maxsize
    && small.ttl == large.ttl
    && small.enableStats == large.enableStats
  }

  /** An affirmative answer of the small cache is also the answer of the large one. */
  ghost predicate NoWorse(o: Output, p: Output) {
    (o.Hit? || o == Answer(true) || o == Stored) ==> p == o
  }

  lemma SharedLookup(s: seq<Entry>, l: seq<Entry>, key: string)
    requires DistinctKeys(l) && Subsequence(s, l)
    requires Lookup(s, key).Some?
    ensures Lookup(l, key) == Lookup(s, key)
  {
    SubsequenceLength(s, l);
    LookupUnique(l, Lookup(s, key).value);
  }

  /** Taking one key out of both caches keeps the simulation's order and size bound. */
  lemma IncludedWithout(small: Config, s: State, large: Config, l: State, key: string)
    requires Included(small, s, large, l)
    ensures Subsequence(Without(s.entries, key), Without(l.entries, key))
    ensures |Without(l.entries, key)| - |Without(s.entries, key)| <= |l.entries| - |s.entries|
  {
    SubsequenceFilter(KeyIsNot(key), s.entries, l.entries);
  }

  /** The entries after a lookup: a hit moves to the end, an expired entry goes. */
  function Touched(cfg: Config, es: seq<Entry>, key: string, now: real): seq<Entry> {
    var found := Lookup(es, key);
    if found.None? then es
    else if Expired(cfg, found.value, now) then Without(es, key)
    else Without(es, key) + [found.value]
  }

  lemma TouchedIncluded(small: Config, s: seq<Entry>, large: Config, l: seq<Entry>, key: string, now: real)
    requires Comparable(small, large) && DistinctKeys(s) && DistinctKeys(l)
    requires Subsequence(s, l) && Subsequence(Without(s, key), Without(l, key))
    requires |Without(l, key)| - |Without(s, key)| <= |l| - |s|
    ensures Subsequence(Touched(small, s, key, now), Touched(large, l, key, now))
    ensures |Touched(large, l, key, now)| - |Touched(small, s, key, now)| <= |l| - |s|
    ensures Lookup(s, key).Some? ==> Lookup(l, key) == Lookup(s, key)
  {
    WithoutKey(s, key);
    WithoutKey(l, key);
    if Lookup(s, key).Some? {
      SharedLookup(s, l, key);
      SubsequenceAppend(Without(s, key), Without(l, key), Lookup(s, key).value);
    } else if Lookup(l, key).Some? {
      SubsequenceAppend(Without(s, key), Without(l, key), Lookup(l, key).value);
    }
  }

  /** Lookups move a hit to the end of both orders; a miss of the small cache may still be a hit of the large. */
  lemma TouchKeepsIncluded(small: Config, s: State, large: Config, l: State, op: Op, now: real)
    requires Comparable(small, large) && Included(small, s, large, l)
    requires op.Get? || op.Contains?
    ensures Included(small, Step(small, s, op, now).0, large, Step(large, l, op, now).0)
    ensures NoWorse(Step(small, s, op, now).1, Step(large, l, op, now).1)
  {
    StepKeepsValid(small, s, op, now);
    StepKeepsValid(large, l, op, now);
    IncludedWithout(small, s, large, l, op.key);
    TouchedIncluded(small, s.entries, large, l.entries, op.key, now);
    StepTouches(small, s, op, now);
    StepTouches(large, l, op, now);
    TouchAnswers(small, s, large, l, op, now);
  }

  lemma StepTouches(cfg: Config, s: State, op: Op, now: real)
    requires op.Get? || op.Contains?
    ensures Step(cfg, s, op, now).0.entries == Touched(cfg, s.entries, op.key, now)
  {
  }

  lemma TouchAnswers(small: Config, s: State, large: Config, l: State, op: Op, now: real)
    requires Comparable(small, large) && (op.Get? || op.Contains?) && s.stats.hits <= l.stats.hits
    requires Lookup(s.entries, op.key).Some? ==> Lookup(l.entries, op.key) == Lookup(s.entries, op.key)
    ensures Step(small, s, op, now).0.stats.hits <= Step(large, l, op, now).0.stats.hits
    ensures NoWorse(Step(small, s, op, now).1, Step(large, l, op, now).1)
  {
  }

  /** A store evicts from the large cache only if it also evicts from the small one. */
  lemma SetKeepsIncluded(small: Config, s: State, large: Config, l: State, op: Op, now: real)
    requires Comparable(small, large) && Included(small, s, large, l)
    requires op.Set?
    ensures Included(small, Step(small, s, op, now).0, large, Step(large, l, op, now).0)
    ensures NoWorse(Step(small, s, op, now).1, Step(large, l, op, now).1)
  {
    StepKeepsValid(small, s, op, now);
    StepKeepsValid(large, l, op, now);
    IncludedWithout(small, s, large, l, op.key);
    WithoutKey(s.entries, op.key);
    WithoutKey(l.entries, op.key);
    var s', l' := Without(s.entries, op.key), Without(l.entries, op.key);
    var added := Entry(op.key, op.value, now, op.ttl);
    SubsequenceAppend(s', l', added);
    if |s'| >= small.maxsize {
      SubsequenceDropHead(s', l');
      SubsequenceLength(s', l');
      SubsequenceAppend(s'[1..], l', added);
      SubsequenceAppend(s'[1..], l'[1..], added);
    }
  }

  lemma StepKeepsIncluded(small: Config, s: State, large: Config, l: State, op: Op, now: real)
    requires Comparable(small, large) && Included(small, s, large, l)
    ensures Included(small, Step(small, s, op, now).0, large, Step(large, l, op, now).0)
    ensures NoWorse(Step(small, s, op, now).1, Step(large, l, op, now).1)
  {
    if op.Get? || op.Contains? {
      TouchKeepsIncluded(small, s, large, l, op, now);
    } else if op.Set? {
      SetKeepsIncluded(small, s, large, l, op, now);
    } else {
      StepKeepsValid(small, s, op, now);
      StepKeepsValid(large, l, op, now);
      if op.Delete? {
        IncludedWithout(small, s, large, l, op.key);
        WithoutKey(s.entries, op.key);
        WithoutKey(l.entries, op.key);
        if Lookup(s.entries, op.key).Some? {
          SharedLookup(s.entries, l.entries, op.key);
        }
      } else if op.CleanupExpired? {
        SubsequenceFilter(StillLive(small, now), s.entries, l.entries);
        FilterAgree(StillLive(small, now), StillLive(large, now), l.entries);
      }
    }
  }

  /**
   LRU inclusion. Two caches that differ only in capacity run the same trace: the small cache's
   entries stay an order-preserving subsequence of the large one's, and it never has more hits.
   */
  lemma {:induction false} LruInclusion(small: Config, large: Config, trace: seq<Event>)
    requires Comparable(small, large)
    ensures Included(small, Run(small, trace), large, Run(large, trace))
  {
    if trace != [] {
      var before, last := trace[..|trace| - 1], trace[|trace| - 1];
      LruInclusion(small, large, before);
      StepKeepsIncluded(small, Run(small, before), large, Run(large, before), last.op, last.now);
    }
  }

  /** Every hit the small cache reports is a hit with the same value in the large cache. */
  lemma LruInclusionOutputs(small: Config, large: Config, trace: seq<Event>, i: nat)
    requires Comparable(small, large) && i < |trace|
    ensures NoWorse(OutputAt(small, trace, i), OutputAt(large, trace, i))
  {
    LruInclusion(small, large, trace[..i]);
    StepKeepsIncluded(small, Run(small, trace[..i]), large, Run(large, trace[..i]), trace[i].op, trace[i].now);
  }

  // ----- Agreement with a plain map -----

  /** The unbounded, never-expiring map that the cache stands for. */
  function Ideal(trace: seq<Event>): map<string, Entry> {
    if trace == [] then map[] else IdealStep(Ideal(trace[..|trace| - 1]), trace[|trace| - 1])
  }

  function IdealStep(m: map<string, Entry>, ev: Event): map<string, Entry> {
    match ev.op
    case Set(key, value, ttl) => m[key := Entry(key, value, ev.now, ttl)]
    case Delete(key) => m - {key}
    case Clear => map[]
    case _ => m
  }

  ghost predicate Agrees(es: seq<Entry>, m: map<string, Entry>) {
    forall e :: e in es ==> e.key in m && m[e.key] == e
  }

  lemma WithoutOnly(es: seq<Entry>, key: string)
    ensures forall e :: e in Without(es, key) ==> e in es && e.key != key
  {
    assert forall e :: e in Without(es, key) ==> KeyIsNot(key)(e);
  }

  lemma SetAgrees(cfg: Config, s: State, ev: Event, m: map<string, Entry>)
    requires ev.op.Set? && Agrees(s.entries, m)
    ensures Agrees(Step(cfg, s, ev.op, ev.now).0.entries, IdealStep(m, ev))
  {
    WithoutOnly(s.entries, ev.op.key);
  }

  lemma DeleteAgrees(cfg: Config, s: State, ev: Event, m: map<string, Entry>)
    requires ev.op.Delete? && Agrees(s.entries, m)
    ensures Agrees(Step(cfg, s, ev.op, ev.now).0.entries, IdealStep(m, ev))
  {
    WithoutOnly(s.entries, ev.op.key);
  }

  lemma LookupAgrees(cfg: Config, s: State, ev: Event, m: map<string, Entry>)
    requires (ev.op.Get? || ev.op.Contains?) && Agrees(s.entries, m)
    ensures Agrees(Step(cfg, s, ev.op, ev.now).0.entries, IdealStep(m, ev))
  {
    StepTouches(cfg, s, ev.op, ev.now);
    WithoutOnly(s.entries, ev.op.key);
  }

  /** Every entry that is still cached is the latest one stored for its key and not deleted since. */
  lemma {:induction false} CachedIsIdeal(cfg: Config, trace: seq<Event>)
    ensures Agrees(Run(cfg, trace).entries, Ideal(trace))
  {
    if trace != [] {
      var before, ev := trace[..|trace| - 1], trace[|trace| - 1];
      var s, m := Run(cfg, before), Ideal(before);
      CachedIsIdeal(cfg, before);
      if ev.op.Set? {
        SetAgrees(cfg, s, ev, m);
      } else if ev.op.Delete? {
        DeleteAgrees(cfg, s, ev, m);
      } else if ev.op.Get? || ev.op.Contains? {
        LookupAgrees(cfg, s, ev, m);
      }
    }
  }

  /** A hit returns the value most recently stored for the key, and that value has not outlived its time to live. */
  lemma HitIsLatestAndFresh(cfg: Config, trace: seq<Event>, i: nat)
    requires i < |trace| && trace[i].op.Get? && OutputAt(cfg, trace, i).Hit?
    ensures
      var key := trace[i].op.key;
      && key in Ideal(trace[..i])
      && OutputAt(cfg, trace, i) == Hit(Ideal(trace[..i])[key].value)
      && !Expired(cfg, Ideal(trace[..i])[key], trace[i].now)
  {
    CachedIsIdeal(cfg, trace[..i]);
  }

  // ----- Retention: how long a used key is safe from eviction -----

  ghost predicate KeysWithin(es: seq<Entry>, used: set<string>) {
    forall e :: e in es ==> e.key in used
  }

  /** `e` is cached and every more recently used entry has its key in `used`. */
  ghost predicate Retained(es: seq<Entry>, e: Entry, used: set<string>) {
    exists n :: 0 <= n < |es| && es[n] == e && KeysWithin(es[n + 1..], used)
  }

  lemma {:induction false} DistinctKeysBound(es: seq<Entry>, used: set<string>)
    requires DistinctKeys(es) && KeysWithin(es, used)
    ensures |es| <= |used|
  {
    if es != [] {
      assert es[0] in es;
      forall e | e in es[1..] ensures e.key in used - {es[0].key} {}
      DistinctKeysBound(es[1..], used - {es[0].key});
    }
  }

  lemma RetainedFilter(keep: Entry -> bool, es: seq<Entry>, e: Entry, used: set<string>)
    requires Retained(es, e, used) && keep(e)
    ensures Retained(Filter(keep, es), e, used)
  {
    var n :| 0 <= n < |es| && es[n] == e && KeysWithin(es[n + 1..], used);
    var pre, post := es[..n], es[n + 1..];
    FilterAt(keep, es, n);
    var r, m := Filter(keep, es), |Filter(keep, pre)|;
    assert r[m] == e && r[m + 1..] == Filter(keep, post);
    assert KeysWithin(Filter(keep, post), used);
  }

  lemma RetainedAppend(es: seq<Entry>, e: Entry, used: set<string>, x: Entry)
    requires Retained(es, e, used)
    ensures Retained(es + [x], e, used + {x.key})
  {
    var n :| 0 <= n < |es| && es[n] == e && KeysWithin(es[n + 1..], used);
    assert (es + [x])[n] == e && (es + [x])[n + 1..] == es[n + 1..] + [x];
  }

  /** While fewer than `room` keys were used since, the retained entry is not the eviction victim. */
  lemma NotTheVictim(es: seq<Entry>, e: Entry, used: set<string>, room: int)
    requires DistinctKeys(es) && Retained(es, e, used)
    requires |es| >= room > |used| + 1
    ensures Retained(es[1..], e, used)
  {
    var n :| 0 <= n < |es| && es[n] == e && KeysWithin(es[n + 1..], used);
    DistinctKeysBound(es[n + 1..], used);
    assert es[1..][n - 1] == e && es[1..][n..] == es[n + 1..];
  }

  function UsedKey(op: Op): set<string> {
    if op.Get? || op.Set? || op.Contains? then {op.key} else {}
  }

  /** The keys other than `key` that a trace looks up or stores. */
  function UsedOthers(trace: seq<Event>, key: string): set<string> {
    if trace == [] then {}
    else UsedOthers(trace[..|trace| - 1], key) + (UsedKey(trace[|trace| - 1].op) - {key})
  }

  /** The operation neither replaces nor removes `e`, and `e` has not expired when it runs. */
  ghost predicate Spares(cfg: Config, ev: Event, e: Entry) {
    && !((ev.op.Set? || ev.op.Delete?) && ev.op.key == e.key)
    && !ev.op.Clear?
    && !Expired(cfg, e, ev.now)
  }

  lemma SetRetains(cfg: Config, s: State, ev: Event, e: Entry, used: set<string>)
    requires Valid(cfg, s) && Retained(s.entries, e, used)
    requires Spares(cfg, ev, e) && ev.op.Set? && |used + {ev.op.key}| < cfg.maxsize
    ensures Retained(Step(cfg, s, ev.op, ev.now).0.entries, e, used + {ev.op.key})
  {
    var key := ev.op.key;
    var x := Entry(key, ev.op.value, ev.now, ev.op.ttl);
    var rest := Without(s.entries, key);
    WithoutKey(s.entries, key);
    RetainedFilter(KeyIsNot(key), s.entries, e, used);
    if |rest| < cfg.maxsize {
      RetainedAppend(rest, e, used, x);
    } else {
      assert forall y :: y in rest ==> y.key != key;
      RetainedWithout(rest, e, used, key);
      NotTheVictim(rest, e, used - {key}, cfg.maxsize);
      RetainedAppend(rest[1..], e, used - {key}, x);
      assert used + {key} == (used - {key}) + {key};
    }
  }

  lemma RetainedWithout(es: seq<Entry>, e: Entry, used: set<string>, key: string)
    requires Retained(es, e, used) && forall y :: y in es ==> y.key != key
    ensures Retained(es, e, used - {key})
  {
    var n :| 0 <= n < |es| && es[n] == e && KeysWithin(es[n + 1..], used);
    forall y | y in es[n + 1..] ensures y.key in used - {key} {
      assert y in es;
    }
  }

  lemma StepRetains(cfg: Config, s: State, ev: Event, e: Entry, used: set<string>)
    requires Valid(cfg, s) && Retained(s.entries, e, used)
    requires Spares(cfg, ev, e) && |used + (UsedKey(ev.op) - {e.key})| < cfg.maxsize
    ensures Retained(Step(cfg, s, ev.op, ev.now).0.entries, e, used + (UsedKey(ev.op) - {e.key}))
  {
    var op := ev.op;
    if op.Set? {
      assert UsedKey(op) - {e.key} == {op.key};
      SetRetains(cfg, s, ev, e, used);
    } else if op.CleanupExpired? {
      RetainedFilter(StillLive(cfg, ev.now), s.entries, e, used);
      assert used + (UsedKey(op) - {e.key}) == used;
    } else if op.Delete? {
      RetainedFilter(KeyIsNot(op.key), s.entries, e, used);
      assert used + (UsedKey(op) - {e.key}) == used;
    } else {
      LookupRetains(cfg, s, ev, e, used);
    }
  }

  lemma LookupRetains(cfg: Config, s: State, ev: Event, e: Entry, used: set<string>)
    requires Valid(cfg, s) && Retained(s.entries, e, used)
    requires Spares(cfg, ev, e) && (ev.op.Get? || ev.op.Contains?)
    ensures Retained(Step(cfg, s, ev.op, ev.now).0.entries, e, used + ({ev.op.key} - {e.key}))
  {
    var key := ev.op.key;
    StepTouches(cfg, s, ev.op, ev.now);
    if key == e.key {
      LookupUnique(s.entries, e);
      var es := Without(s.entries, key) + [e];
      assert es[|es| - 1] == e && es[|es|..] == [];
    } else {
      assert {key} - {e.key} == {key};
      RetainedFilter(KeyIsNot(key), s.entries, e, used);
      if Lookup(s.entries, key).Some? {
        RetainedAppend(Without(s.entries, key), e, used, Lookup(s.entries, key).value);
      }
      RetainedMonotone(s.entries, e, used, used + {key});
      RetainedMonotone(Without(s.entries, key), e, used, used + {key});
    }
  }

  lemma RetainedMonotone(es: seq<Entry>, e: Entry, used: set<string>, more: set<string>)
    requires Retained(es, e, used) && used <= more
    ensures Retained(es, e, more)
  {
    var n :| 0 <= n < |es| && es[n] == e && KeysWithin(es[n + 1..], used);
    assert KeysWithin(es[n + 1..], more);
  }

  /**
   Retention. A stored value stays cached, whatever happens in between, as long as it is not
   replaced, deleted, cleared or expired and fewer than `maxsize` other keys are used.
   */
  lemma {:induction false} StoredIsRetained(cfg: Config, past: seq<Event>, store: Event, later: seq<Event>)
    requires store.op.Set?
    requires var e := Entry(store.op.key, store.op.value, store.now, store.op.ttl);
             forall ev :: ev in later ==> Spares(cfg, ev, e)
    requires |UsedOthers(later, store.op.key)| < cfg.maxsize
    ensures var e := Entry(store.op.key, store.op.value, store.now, store.op.ttl);
            Retained(Run(cfg, past + [store] + later).entries, e, UsedOthers(later, store.op.key))
    decreases |later|
  {
    var e := Entry(store.op.key, store.op.value, store.now, store.op.ttl);
    if later == [] {
      assert past + [store] + later == past + [store];
      RunAppend(cfg, past, store);
      var es := Run(cfg, past + [store]).entries;
      assert es[|es| - 1] == e && es[|es|..] == [];
    } else {
      var rest, last := later[..|later| - 1], later[|later| - 1];
      var before := past + [store] + rest;
      assert past + [store] + later == before + [last];
      RunAppend(cfg, before, last);
      RunValid(cfg, before);
      SubsetSize(UsedOthers(rest, e.key), UsedOthers(later, e.key));
      StoredIsRetained(cfg, past, store, rest);
      StepRetains(cfg, Run(cfg, before), last, e, UsedOthers(rest, e.key));
    }
  }

  lemma RunAppend(cfg: Config, trace: seq<Event>, ev: Event)
    ensures Run(cfg, trace + [ev]) == Step(cfg, Run(cfg, trace), ev.op, ev.now).0
  {
    assert (trace + [ev])[..|trace|] == trace;
  }

  // ----- The object -----

  class LruCache {
    const cfg: Config
    var entries: seq<Entry>
    var stats: Stats

    function View(): State
      reads this
    {
      State(entries, stats)
    }

    ghost predicate Ok()
      reads this
    {
      Valid(cfg, View())
    }

    constructor (maxsize: int, ttl: Option<real>, enableStats: bool)
      ensures cfg == Config(maxsize, ttl, enableStats) && View() == EMPTY && Ok()
    {
      cfg := Config(maxsize, ttl, enableStats);
      entries := [];
      stats := EMPTY.stats;
    }

    method Get(key: string, now: real) returns (r: Output)
      requires Ok()
      modifies this
      ensures (View(), r) == GetStep(cfg, old(View()), key, now) && Ok()
    {
      StepKeepsValid(cfg, View(), Op.Get(key), now);
      var found := Lookup(entries, key);
      if found.None? {
        if cfg.enableStats {
          stats := stats.(misses := stats.misses + 1);
        }
        return Miss;
      }
      if Expired(cfg, found.value, now) {
        entries := Without(entries, key);
        if cfg.enableStats {
          stats := stats.(expirations := stats.expirations + 1);
          stats := stats.(misses := stats.misses + 1);
        }
        return Miss;
      }
      entries := Without(entries, key) + [found.value];
      if cfg.enableStats {
        stats := stats.(hits := stats.hits + 1);
      }
      return Hit(found.value.value);
    }

    method Set(key: string, value: Value, ttl: Option<real>, now: real) returns (r: Output)
      requires Ok()
      modifies this
      ensures (View(), r) == SetStep(cfg, old(View()), key, value, ttl, now) && Ok()
    {
      StepKeepsValid(cfg, View(), Op.Set(key, value, ttl), now);
      WithoutKey(entries, key);
      if Lookup(entries, key).Some? {
        entries := Without(entries, key);
      }
      if |entries| >= cfg.maxsize {
        if entries == [] {
          return KeyError;
        }
        entries := entries[1..];
        if cfg.enableStats {
          stats := stats.(evictions := stats.evictions + 1);
        }
      }
      entries := entries + [Entry(key, value, now, ttl)];
      if cfg.enableStats {
        stats := stats.(sets := stats.sets + 1);
      }
      return Stored;
    }

    method Delete(key: string) returns (r: Output)
      requires Ok()
      modifies this
      ensures (View(), r) == DeleteStep(cfg, old(View()), key) && Ok()
    {
      StepKeepsValid(cfg, View(), Op.Delete(key), 0.0);
      if Lookup(entries, key).Some? {
        entries := Without(entries, key);
        if cfg.enableStats {
          stats := stats.(deletes := stats.deletes + 1);
        }
        return Answer(true);
      }
      return Answer(false);
    }

    method Contains(key: string, now: real) returns (r: Output)
      requires Ok()
      modifies this
      ensures (View(), r) == ContainsStep(cfg, old(View()), key, now) && Ok()
    {
      StepKeepsValid(cfg, View(), Op.Contains(key), now);
      var found := Lookup(entries, key);
      if found.None? {
        return Answer(false);
      }
      if Expired(cfg, found.value, now) {
        entries := Without(entries, key);
        if cfg.enableStats {
          stats := stats.(expirations := stats.expirations + 1);
        }
        return Answer(false);
      }
      entries := Without(entries, key) + [found.value];
      return Answer(true);
    }

    /** Collects the expired keys in one pass, then deletes them one at a time. */
    method CleanupExpired(now: real) returns (r: Output)
      requires Ok()
      modifies this
      ensures (View(), r) == CleanupStep(cfg, old(View()), now) && Ok()
    {
      StepKeepsValid(cfg, View(), Op.CleanupExpired, now);
      CleanupAgrees(cfg, entries, now);
      ghost var step := CleanupStep(cfg, View(), now);
      var expired := CollectExpired(now);
      DropKeys(expired);
      assert entries == step.0.entries && |expired| == step.1.n;
      if expired != [] && cfg.enableStats {
        stats := stats.(expirations := stats.expirations + |expired|);
      }
      return Count(|expired|);
    }

    method CollectExpired(now: real) returns (expired: seq<string>)
      ensures expired == ExpiredKeys(cfg, entries, now)
    {
      expired := [];
      for i := 0 to |entries|
        invariant expired == ExpiredKeys(cfg, entries[..i], now)
      {
        assert entries[..i + 1][..i] == entries[..i];
        if Expired(cfg, entries[i], now) {
          expired := expired + [entries[i].key];
        }
      }
      assert entries[..|entries|] == entries;
    }

    method DropKeys(keys: seq<string>)
      modifies `entries
      ensures entries == Filter(KeyNotIn(keys), old(entries))
    {
      FilterAll(KeyNotIn(keys[..0]), entries);
      for j := 0 to |keys|
        invariant entries == Filter(KeyNotIn(keys[..j]), old(entries))
      {
        DropOneMore(old(entries), keys, j);
        entries := Without(entries, keys[j]);
      }
      assert keys[..|keys|] == keys;
    }

    method Clear() returns (r: Output)
      requires Ok()
      modifies this
      ensures (View(), r) == Step(cfg, old(View()), Op.Clear, 0.0) && Ok()
    {
      entries := [];
      return Done;
    }
  }

  function KeyNotIn(keys: seq<string>): Entry -> bool {
    (e: Entry) => e.key !in keys
  }

  function ExpiredKeys(cfg: Config, es: seq<Entry>, now: real): seq<string> {
    if es == [] then []
    else
      var n := |es| - 1;
      ExpiredKeys(cfg, es[..n], now) + (if Expired(cfg, es[n], now) then [es[n].key] else [])
  }

  lemma DropOneMore(all: seq<Entry>, keys: seq<string>, j: nat)
    requires j < |keys|
    ensures Without(Filter(KeyNotIn(keys[..j]), all), keys[j]) == Filter(KeyNotIn(keys[..j + 1]), all)
  {
    FilterBoth(KeyNotIn(keys[..j]), KeyIsNot(keys[j]), KeyNotIn(keys[..j + 1]), all);
  }

  lemma {:induction false} FilterBoth<T>(p: T -> bool, q: T -> bool, both: T -> bool, s: seq<T>)
    requires forall x :: both(x) <==> p(x) && q(x)
    ensures Filter(q, Filter(p, s)) == Filter(both, s)
  {
    if s != [] {
      FilterBoth(p, q, both, s[1..]);
      assert p(s[0]) ==> ([s[0]] + Filter(p, s[1..]))[1..] == Filter(p, s[1..]);
    }
  }

  lemma {:induction false} ExpiredKeysExact(cfg: Config, es: seq<Entry>, now: real)
    ensures |ExpiredKeys(cfg, es, now)| == |es| - |Filter(StillLive(cfg, now), es)|
    ensures forall e :: e in es && Expired(cfg, e, now) ==> e.key in ExpiredKeys(cfg, es, now)
    ensures forall k :: k in ExpiredKeys(cfg, es, now) ==> exists e :: e in es && e.key == k && Expired(cfg, e, now)
  {
    if es != [] {
      var n := |es| - 1;
      ExpiredKeysExact(cfg, es[..n], now);
      assert es == es[..n] + [es[n]];
      FilterConcat(StillLive(cfg, now), es[..n], [es[n]]);
    }
  }

  /** Deleting the collected keys leaves exactly the entries that were still live. */
  lemma CleanupAgrees(cfg: Config, all: seq<Entry>, now: real)
    requires DistinctKeys(all)
    ensures Filter(KeyNotIn(ExpiredKeys(cfg, all, now)), all) == Filter(StillLive(cfg, now), all)
    ensures |ExpiredKeys(cfg, all, now)| == |all| - |Filter(StillLive(cfg, now), all)|
  {
    ExpiredKeysExact(cfg, all, now);
    FilterAgree(KeyNotIn(ExpiredKeys(cfg, all, now)), StillLive(cfg, now), all);
  }
}
