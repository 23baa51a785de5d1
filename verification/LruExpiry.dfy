/** Which time to live decides: when exactly a stored value is still found, with the cases written out. */
module LruExpiry {
  import opened Prelude
  import opened Lru

  /** Old enough to be gone: by its own time to live if the store gave one, else by the cache's, else never. */
  predicate TooOld(own: Option<real>, default: Option<real>, age: real) {
    if own.Some? then age > own.value
    else default.Some? && age > default.value
  }

  function RunFrom(cfg: Config, s: State, trace: seq<Event>): State {
    if trace == [] then s
    else
      var n := |trace| - 1;
      Step(cfg, RunFrom(cfg, s, trace[..n]), trace[n].op, trace[n].now).0
  }

  /** The store of another key throws this one out: the cache is full, and it is the least recently used. */
  ghost predicate Evicts(cfg: Config, s: State, op: Op, key: string) {
    && op.Set? && op.key != key
    && var rest := Without(s.entries, op.key);
       |rest| >= cfg.maxsize && rest != [] && rest[0].key == key
  }

  /** The operation looks at the age of the entry. */
  predicate LooksAt(op: Op, key: string) {
    ((op.Get? || op.Contains?) && op.key == key) || op.CleanupExpired?
  }

  /** The operation neither replaces nor deletes the entry, nor clears the cache. */
  predicate Keeps(op: Op, key: string) {
    !((op.Set? || op.Delete?) && op.key == key) && !op.Clear?
  }

  // ----- What one operation does to the entry of one key -----

  /** An operation that keeps the entry and does not throw it out removes it exactly when it looks at it too late. */
  lemma StepFate(cfg: Config, s: State, op: Op, now: real, e: Entry)
    requires Valid(cfg, s) && e in s.entries && Keeps(op, e.key) && !Evicts(cfg, s, op, e.key)
    ensures Valid(cfg, Step(cfg, s, op, now).0)
    ensures var gone := LooksAt(op, e.key) && TooOld(e.ttl, cfg.ttl, now - e.stamp);
            Lookup(Step(cfg, s, op, now).0.entries, e.key) == if gone then None else Some(e)
  {
    var s' := Step(cfg, s, op, now).0;
    StepKeepsValid(cfg, s, op, now);
    LookupUnique(s.entries, e);
    if op.Get? || op.Contains? {
      LookupFate(cfg, s, op, now, e);
    } else if op.Set? {
      SetFate(cfg, s, op, now, e);
    } else if op.Delete? {
      OthersStay(s.entries, op.key, e);
      if Lookup(s.entries, op.key).Some? {
        LookupUnique(s'.entries, e);
      }
    } else if op.CleanupExpired? && !TooOld(e.ttl, cfg.ttl, now - e.stamp) {
      assert e in s'.entries;
      LookupUnique(s'.entries, e);
    } else if op.CleanupExpired? {
      GoneAfterCleanup(cfg, s, now, e);
    }
  }

  lemma OthersStay(es: seq<Entry>, key: string, e: Entry)
    requires e in es && e.key != key
    ensures e in Without(es, key)
  {
    assert KeyIsNot(key)(e);
  }

  lemma GoneFrom(es: seq<Entry>, key: string)
    ensures Lookup(Without(es, key), key) == None
  {
    assert forall e :: e in Without(es, key) ==> KeyIsNot(key)(e);
  }

  lemma LookupFate(cfg: Config, s: State, op: Op, now: real, e: Entry)
    requires Valid(cfg, s) && e in s.entries && (op.Get? || op.Contains?) && Valid(cfg, Step(cfg, s, op, now).0)
    ensures var gone := op.key == e.key && TooOld(e.ttl, cfg.ttl, now - e.stamp);
            Lookup(Step(cfg, s, op, now).0.entries, e.key) == if gone then None else Some(e)
  {
    var s' := Step(cfg, s, op, now).0;
    StepTouches(cfg, s, op, now);
    LookupUnique(s.entries, e);
    GoneFrom(s.entries, op.key);
    if op.key != e.key {
      OthersStay(s.entries, op.key, e);
    }
    if e in s'.entries {
      LookupUnique(s'.entries, e);
    }
  }

  lemma SetFate(cfg: Config, s: State, op: Op, now: real, e: Entry)
    requires Valid(cfg, s) && e in s.entries && op.Set? && op.key != e.key && !Evicts(cfg, s, op, e.key)
    requires Valid(cfg, Step(cfg, s, op, now).0)
    ensures Lookup(Step(cfg, s, op, now).0.entries, e.key) == Some(e)
  {
    var s', rest := Step(cfg, s, op, now).0, Without(s.entries, op.key);
    OthersStay(s.entries, op.key, e);
    if |rest| >= cfg.maxsize {
      assert rest[0] != e;
      assert e in rest[1..];
    }
    assert e in s'.entries;
    LookupUnique(s'.entries, e);
  }

  lemma GoneAfterCleanup(cfg: Config, s: State, now: real, e: Entry)
    requires Valid(cfg, s) && e in s.entries && TooOld(e.ttl, cfg.ttl, now - e.stamp)
    ensures Lookup(CleanupStep(cfg, s, now).0.entries, e.key) == None
  {
    var live := Filter(StillLive(cfg, now), s.entries);
    var found := Lookup(live, e.key);
    if found.Some? {
      assert found.value in s.entries && StillLive(cfg, now)(found.value);
      LookupUnique(s.entries, e);
      LookupUnique(s.entries, found.value);
    }
  }

  /** What is gone does not come back by itself. */
  lemma StepStaysGone(cfg: Config, s: State, op: Op, now: real, key: string)
    requires Valid(cfg, s) && Lookup(s.entries, key) == None && Keeps(op, key)
    ensures Lookup(Step(cfg, s, op, now).0.entries, key) == None
  {
    var s' := Step(cfg, s, op, now).0;
    if op.Get? || op.Contains? {
      StepTouches(cfg, s, op, now);
    }
    assert forall e :: e in s'.entries && e.key == key ==> e in s.entries;
  }

  // ----- The life of a stored value -----

  /** Nothing replaces, deletes, clears or throws out the key. */
  ghost predicate Undisturbed(cfg: Config, s: State, later: seq<Event>, key: string) {
    forall i :: 0 <= i < |later| ==>
      Keeps(later[i].op, key) && !Evicts(cfg, RunFrom(cfg, s, later[..i]), later[i].op, key)
  }

  /** Some operation has looked at the value too late. */
  predicate SeenTooLate(cfg: Config, later: seq<Event>, key: string, own: Option<real>, stored: real) {
    exists i :: 0 <= i < |later| && LooksAt(later[i].op, key) && TooOld(own, cfg.ttl, later[i].now - stored)
  }

  lemma UndisturbedBefore(cfg: Config, s: State, later: seq<Event>, key: string)
    requires later != [] && Undisturbed(cfg, s, later, key)
    ensures Undisturbed(cfg, s, later[..|later| - 1], key)
  {
    var n := |later| - 1;
    forall i | 0 <= i < n
      ensures Keeps(later[..n][i].op, key) && !Evicts(cfg, RunFrom(cfg, s, later[..n][..i]), later[..n][i].op, key)
    {
      assert later[..n][..i] == later[..i] && later[..n][i] == later[i];
    }
  }

  lemma SeenTooLateBefore(cfg: Config, later: seq<Event>, key: string, own: Option<real>, stored: real)
    requires later != []
    ensures var n := |later| - 1;
            SeenTooLate(cfg, later, key, own, stored)
            <==> SeenTooLate(cfg, later[..n], key, own, stored)
                 || (LooksAt(later[n].op, key) && TooOld(own, cfg.ttl, later[n].now - stored))
  {
    var n := |later| - 1;
    if i :| 0 <= i < n && LooksAt(later[..n][i].op, key) && TooOld(own, cfg.ttl, later[..n][i].now - stored) {
      assert later[..n][i] == later[i];
    }
    if i :| 0 <= i < n && LooksAt(later[i].op, key) && TooOld(own, cfg.ttl, later[i].now - stored) {
      assert later[..n][i] == later[i];
    }
  }

  lemma {:induction false} EntryFate(cfg: Config, s: State, later: seq<Event>, e: Entry)
    requires Valid(cfg, s) && e in s.entries && Undisturbed(cfg, s, later, e.key)
    ensures Valid(cfg, RunFrom(cfg, s, later))
    ensures Lookup(RunFrom(cfg, s, later).entries, e.key)
            == if SeenTooLate(cfg, later, e.key, e.ttl, e.stamp) then None else Some(e)
    decreases |later|
  {
    if later == [] {
      LookupUnique(s.entries, e);
    } else {
      var n := |later| - 1;
      var before, last := RunFrom(cfg, s, later[..n]), later[n];
      UndisturbedBefore(cfg, s, later, e.key);
      SeenTooLateBefore(cfg, later, e.key, e.ttl, e.stamp);
      EntryFate(cfg, s, later[..n], e);
      StepKeepsValid(cfg, before, last.op, last.now);
      if SeenTooLate(cfg, later[..n], e.key, e.ttl, e.stamp) {
        StepStaysGone(cfg, before, last.op, last.now, e.key);
      } else {
        StepFate(cfg, before, last.op, last.now, e);
      }
    }
  }

  /**
   A stored value is found exactly as long as it may live. After any operations, a store and any others that
   neither replace, delete or clear the key nor throw it out, a lookup answers with the stored value if it is
   not too old now and no lookup, membership test or clean-up has seen it too old before; otherwise it misses.
   */
  lemma HitIff(cfg: Config, s: State, key: string, value: Value, ttl: Option<real>, stored: real, later: seq<Event>, now: real)
    requires Valid(cfg, s) && cfg.maxsize >= 1
    requires Undisturbed(cfg, SetStep(cfg, s, key, value, ttl, stored).0, later, key)
    ensures var s' := RunFrom(cfg, SetStep(cfg, s, key, value, ttl, stored).0, later);
            GetStep(cfg, s', key, now).1
            == if SeenTooLate(cfg, later, key, ttl, stored) || TooOld(ttl, cfg.ttl, now - stored) then Miss else Hit(value)
  {
    var e := Entry(key, value, stored, ttl);
    var first := SetStep(cfg, s, key, value, ttl, stored).0;
    StepKeepsValid(cfg, s, Op.Set(key, value, ttl), stored);
    WithoutKey(s.entries, key);
    assert first.entries[|first.entries| - 1] == e;
    EntryFate(cfg, first, later, e);
  }

  // ----- The three cases, with nothing looked at in between -----

  /** A value stored with its own time to live is found at once, and later for exactly so long, whatever the cache's default is. */
  lemma OwnTtlDecides(cfg: Config, s: State, key: string, value: Value, ttl: real, stored: real, now: real)
    requires Valid(cfg, s) && cfg.maxsize >= 1
    ensures GetStep(cfg, SetStep(cfg, s, key, value, Some(ttl), stored).0, key, now).1
            == if now - stored <= ttl then Hit(value) else Miss
  {
    HitIff(cfg, s, key, value, Some(ttl), stored, [], now);
  }

  /** Without one the cache's default decides, and without that the value lives on. */
  lemma DefaultTtlDecides(cfg: Config, s: State, key: string, value: Value, stored: real, now: real)
    requires Valid(cfg, s) && cfg.maxsize >= 1
    ensures GetStep(cfg, SetStep(cfg, s, key, value, None, stored).0, key, now).1
            == if cfg.ttl.Some? && now - stored > cfg.ttl.value then Miss else Hit(value)
  {
    HitIff(cfg, s, key, value, None, stored, [], now);
  }
}
