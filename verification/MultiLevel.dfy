/**
 The two-level cache of app/core/lru_cache.py: a small fast L1 in front of a large L2.
 A value found in L2 is promoted, that is, stored again in L1 with a new time stamp.
 */
module MultiLevel {
  import opened Prelude
  import opened Lru

  datatype Levels = Levels(l1: State, l2: State, l1Hits: nat, l2Hits: nat, misses: nat)

  datatype Call = Read(key: string, now: real) | Write(key: string, value: Value, now: real)

  datatype Reply = Found(value: Value) | NotFound | Raised | Written

  const START := Levels(EMPTY, EMPTY, 0, 0, 0)

  function ReadStep(c1: Config, c2: Config, s: Levels, key: string, now: real): (Levels, Reply) {
    var (a, o1) := GetStep(c1, s.l1, key, now);
    if o1.Hit? && o1.value != Nil then
      (s.(l1 := a, l1Hits := s.l1Hits + 1), Found(o1.value))
    else
      var (b, o2) := GetStep(c2, s.l2, key, now);
      if o2.Hit? && o2.value != Nil then
        var (p, o3) := SetStep(c1, a, key, o2.value, None, now);
        (s.(l1 := p, l2 := b, l2Hits := s.l2Hits + 1), if o3.KeyError? then Raised else Found(o2.value))
      else
        (s.(l1 := a, l2 := b, misses := s.misses + 1), NotFound)
  }

  function WriteStep(c1: Config, c2: Config, s: Levels, key: string, value: Value, now: real): (Levels, Reply) {
    var (a, o1) := SetStep(c1, s.l1, key, value, None, now);
    if o1.KeyError? then (s.(l1 := a), Raised)
    else
      var (b, o2) := SetStep(c2, s.l2, key, value, None, now);
      (s.(l1 := a, l2 := b), if o2.KeyError? then Raised else Written)
  }

  function CallStep(c1: Config, c2: Config, s: Levels, call: Call): (Levels, Reply) {
    match call
    case Read(key, now) => ReadStep(c1, c2, s, key, now)
    case Write(key, value, now) => WriteStep(c1, c2, s, key, value, now)
  }

  function RunCalls(c1: Config, c2: Config, calls: seq<Call>): Levels {
    if calls == [] then START
    else CallStep(c1, c2, RunCalls(c1, c2, calls[..|calls| - 1]), calls[|calls| - 1]).0
  }

  /** The last value a caller asked to store for each key, and when. */
  function LastWrites(calls: seq<Call>): map<string, (Value, real)> {
    if calls == [] then map[]
    else
      var n := |calls| - 1;
      match calls[n]
      case Read(_, _) => LastWrites(calls[..n])
      case Write(key, value, now) => LastWrites(calls[..n])[key := (value, now)]
  }

  function NonNegative(x: real): real {
    if x < 0.0 then 0.0 else x
  }

  /** An L2 entry is the last write itself; an L1 entry may be a later copy of it, made while L2 was still live. */
  ghost predicate Coherent(c2: Config, s: Levels, last: map<string, (Value, real)>) {
    && (forall e :: e in s.l2.entries ==> e.key in last && last[e.key] == (e.value, e.stamp) && e.ttl == None)
    && (forall e :: e in s.l1.entries ==>
          && e.key in last && last[e.key].0 == e.value && e.ttl == None
          && (c2.ttl.Some? ==> e.stamp - last[e.key].1 <= NonNegative(c2.ttl.value)))
  }

  ghost predicate BothValid(c1: Config, c2: Config, s: Levels) {
    Valid(c1, s.l1) && Valid(c2, s.l2)
  }

  /** A lookup only removes or moves entries. */
  lemma GetAddsNothing(cfg: Config, s: State, key: string, now: real)
    ensures forall e :: e in GetStep(cfg, s, key, now).0.entries ==> e in s.entries
  {
  }

  /** A store leaves only old entries of other keys and the new one. */
  lemma SetAddsOne(cfg: Config, s: State, key: string, value: Value, ttl: Option<real>, now: real)
    ensures forall e :: e in SetStep(cfg, s, key, value, ttl, now).0.entries ==>
              (e in s.entries && e.key != key) || e == Entry(key, value, now, ttl)
    ensures SetStep(cfg, s, key, value, ttl, now).1.KeyError? ==> SetStep(cfg, s, key, value, ttl, now).0.entries == []
  {
    var rest := Without(s.entries, key);
    assert forall e :: e in rest ==> e in s.entries && KeyIsNot(key)(e);
  }

  lemma ReadKeepsCoherent(c1: Config, c2: Config, s: Levels, last: map<string, (Value, real)>, key: string, now: real)
    requires BothValid(c1, c2, s) && Coherent(c2, s, last)
    ensures BothValid(c1, c2, ReadStep(c1, c2, s, key, now).0)
    ensures Coherent(c2, ReadStep(c1, c2, s, key, now).0, last)
    ensures var r := ReadStep(c1, c2, s, key, now).1;
            r.Found? ==>
              && key in last && r.value == last[key].0
              && (c1.ttl.Some? && c2.ttl.Some? ==>
                    now - last[key].1 <= NonNegative(c1.ttl.value) + NonNegative(c2.ttl.value))
  {
    StepKeepsValid(c1, s.l1, Op.Get(key), now);
    StepKeepsValid(c2, s.l2, Op.Get(key), now);
    GetAddsNothing(c1, s.l1, key, now);
    GetAddsNothing(c2, s.l2, key, now);
    var (a, o1) := GetStep(c1, s.l1, key, now);
    var (b, o2) := GetStep(c2, s.l2, key, now);
    if !(o1.Hit? && o1.value != Nil) && o2.Hit? && o2.value != Nil {
      StepKeepsValid(c1, a, Op.Set(key, o2.value, None), now);
      SetAddsOne(c1, a, key, o2.value, None, now);
      assert Lookup(s.l2.entries, key).value in s.l2.entries;
    }
  }

  lemma WriteKeepsCoherent(c1: Config, c2: Config, s: Levels, last: map<string, (Value, real)>,
                           key: string, value: Value, now: real)
    requires BothValid(c1, c2, s) && Coherent(c2, s, last)
    requires c1.maxsize <= 0 ==> s.l2.entries == []
    ensures var s' := WriteStep(c1, c2, s, key, value, now).0;
            BothValid(c1, c2, s') && Coherent(c2, s', last[key := (value, now)])
            && (c1.maxsize <= 0 ==> s'.l2.entries == [])
  {
    StepKeepsValid(c1, s.l1, Op.Set(key, value, None), now);
    StepKeepsValid(c2, s.l2, Op.Set(key, value, None), now);
    SetAddsOne(c1, s.l1, key, value, None, now);
    SetAddsOne(c2, s.l2, key, value, None, now);
  }

  lemma {:induction false} RunCoherent(c1: Config, c2: Config, calls: seq<Call>)
    ensures var s := RunCalls(c1, c2, calls);
            BothValid(c1, c2, s) && Coherent(c2, s, LastWrites(calls))
            && (c1.maxsize <= 0 ==> s.l2.entries == [])
  {
    if calls != [] {
      var n := |calls| - 1;
      var s, last := RunCalls(c1, c2, calls[..n]), LastWrites(calls[..n]);
      RunCoherent(c1, c2, calls[..n]);
      match calls[n]
      case Read(key, now) =>
        ReadKeepsCoherent(c1, c2, s, last, key, now);
        GetAddsNothing(c2, s.l2, key, now);
      case Write(key, value, now) =>
        WriteKeepsCoherent(c1, c2, s, last, key, value, now);
    }
  }

  /**
   Coherence and bounded staleness. After any calls, a value that a read finds is the last one
   written for the key, and it was written at most `l1_ttl + l2_ttl` ago however often it was promoted.
   */
  lemma ReadIsLastWrite(c1: Config, c2: Config, calls: seq<Call>, key: string, now: real)
    ensures var r := ReadStep(c1, c2, RunCalls(c1, c2, calls), key, now).1;
            r.Found? ==>
              && key in LastWrites(calls) && r.value == LastWrites(calls)[key].0 && r.value != Nil
              && (c1.ttl.Some? && c2.ttl.Some? ==>
                    now - LastWrites(calls)[key].1 <= NonNegative(c1.ttl.value) + NonNegative(c2.ttl.value))
  {
    RunCoherent(c1, c2, calls);
    ReadKeepsCoherent(c1, c2, RunCalls(c1, c2, calls), LastWrites(calls), key, now);
  }

  /** The bound is reached: a promotion at the last live moment of L2 lets L1 serve the value for `l1_ttl` more. */
  lemma StalenessBoundIsTight(c1: Config, c2: Config, key: string, id: int)
    requires c1.maxsize >= 1 && c2.maxsize >= 1
    requires c1.ttl.Some? && c2.ttl.Some? && 0.0 <= c1.ttl.value < c2.ttl.value
    ensures var calls := [Write(key, Item(id), 0.0), Read(key, c2.ttl.value)];
            ReadStep(c1, c2, RunCalls(c1, c2, calls), key, c1.ttl.value + c2.ttl.value).1 == Found(Item(id))
  {
    var w, r := Write(key, Item(id), 0.0), Read(key, c2.ttl.value);
    assert [w, r][..1] == [w] && [w][..0] == [];
    var e := Entry(key, Item(id), 0.0, None);
    var s := RunCalls(c1, c2, [w]);
    assert RunCalls(c1, c2, []) == START && Without([], key) == [];
    assert s == CallStep(c1, c2, START, w).0;
    assert s.l1.entries == [e] && s.l2.entries == [e];
    assert Without([e], key) == [];
    var p := Entry(key, Item(id), c2.ttl.value, None);
    assert RunCalls(c1, c2, [w, r]).l1.entries == [p];
  }

  class MultiLevelLruCache {
    const l1Cache: LruCache
    const l2Cache: LruCache
    var l1Hits: nat
    var l2Hits: nat
    var misses: nat

    ghost predicate Ok()
      reads this, l1Cache, l2Cache
    {
      l1Cache != l2Cache && l1Cache.Ok() && l2Cache.Ok()
    }

    function View(): Levels
      reads this, l1Cache, l2Cache
    {
      Levels(l1Cache.View(), l2Cache.View(), l1Hits, l2Hits, misses)
    }

    constructor (l1Maxsize: int, l2Maxsize: int, l1Ttl: Option<real>, l2Ttl: Option<real>)
      ensures Ok() && View() == START && fresh(l1Cache) && fresh(l2Cache)
      ensures l1Cache.cfg == Config(l1Maxsize, l1Ttl, true) && l2Cache.cfg == Config(l2Maxsize, l2Ttl, true)
    {
      l1Cache := new LruCache(l1Maxsize, l1Ttl, true);
      l2Cache := new LruCache(l2Maxsize, l2Ttl, true);
      l1Hits, l2Hits, misses := 0, 0, 0;
    }

    method Get(key: string, now: real) returns (r: Reply)
      requires Ok()
      modifies this, l1Cache, l2Cache
      ensures Ok() && (View(), r) == ReadStep(l1Cache.cfg, l2Cache.cfg, old(View()), key, now)
    {
      ghost var before := View();
      var o := l1Cache.Get(key, now);
      if o.Hit? && o.value != Nil {
        l1Hits := l1Hits + 1;
        return Found(o.value);
      }
      assert View() == before.(l1 := GetStep(l1Cache.cfg, before.l1, key, now).0);
      o := l2Cache.Get(key, now);
      if o.Hit? && o.value != Nil {
        l2Hits := l2Hits + 1;
        var stored := l1Cache.Set(key, o.value, None, now);
        if stored.KeyError? {
          return Raised;
        }
        return Found(o.value);
      }
      misses := misses + 1;
      return NotFound;
    }

    method Set(key: string, value: Value, now: real) returns (r: Reply)
      requires Ok()
      modifies this, l1Cache, l2Cache
      ensures Ok() && (View(), r) == WriteStep(l1Cache.cfg, l2Cache.cfg, old(View()), key, value, now)
    {
      var o := l1Cache.Set(key, value, None, now);
      if o.KeyError? {
        return Raised;
      }
      o := l2Cache.Set(key, value, None, now);
      return if o.KeyError? then Raised else Written;
    }
  }
}
