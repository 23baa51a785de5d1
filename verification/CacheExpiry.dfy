/** The times to live of the cache manager: when exactly a value stored in a namespace is still found. */
module CacheExpiry {
  import opened Prelude
  import Lru
  import opened LruExpiry
  import opened CacheSpaces

  /** How long a stored value lives: the given seconds, ten years, or the default of its namespace, or of all. */
  function Lives(cfg: ManagerConfig, ns: Namespace, ttl: Ttl): real {
    match ttl
    case Seconds(s) => s
    case NeverExpire => 315360000.0
    case DefaultTtl => if ns in cfg.ttls then cfg.ttls[ns] else cfg.globalTtl
  }

  ghost predicate Sound(cfg: ManagerConfig, ns: Namespace, s: Space) {
    Lru.Valid(cfg.LruConfig(ns), s.lru)
  }

  function KeyNow(cfg: ManagerConfig, s: Space, key: string): string {
    VersionedKey(cfg.enableVersioning, s.version, key)
  }

  // ----- What a call means for one key -----

  /** The call neither replaces the key nor drops it. */
  ghost predicate Leaves(cfg: ManagerConfig, op: Op, ns: Namespace, key: string) {
    !(op.Set? && op.ns == ns && op.key == key) && !Invalidates(cfg, op, ns, key)
  }

  /** The store of another key of the full namespace throws this one out. */
  ghost predicate ThrowsOut(cfg: ManagerConfig, s: Space, op: Op, ns: Namespace, key: string) {
    && op.Set? && op.ns == ns
    && Evicts(cfg.LruConfig(ns), s.lru,
              Lru.Set(KeyNow(cfg, s, op.key), op.value, Some(EffectiveSeconds(cfg, ns, op.ttl))), KeyNow(cfg, s, key))
  }

  /** The call looks at the age of the key's entry. */
  predicate SeesAge(op: Op, ns: Namespace, key: string) {
    (op.Get? && op.ns == ns && op.key == key) || op.PeriodicCleanup?
  }

  // ----- One call is one step of the cache, or none -----

  function StepOf(cfg: ManagerConfig, s: Space, op: Op, ns: Namespace): Option<Lru.Op> {
    match op
    case Get(n, key) => if n == ns then Some(Lru.Get(KeyNow(cfg, s, key))) else None
    case Set(n, key, value, ttl) =>
      if n == ns then Some(Lru.Set(KeyNow(cfg, s, key), value, Some(EffectiveSeconds(cfg, ns, ttl)))) else None
    case Delete(n, key) => if n == ns then Some(Lru.Delete(KeyNow(cfg, s, key))) else None
    case InvalidateRelated(n, maybeKey, _) =>
      if n == ns && IsSingleKey(maybeKey) then Some(Lru.Delete(KeyNow(cfg, s, maybeKey.value))) else None
    case PeriodicCleanup => Some(Lru.CleanupExpired)
    case _ => None
  }

  lemma CallIsStep(cfg: ManagerConfig, ns: Namespace, s: Space, call: Call, key: string)
    requires Leaves(cfg, call.op, ns, key)
    ensures var s', step := Effect(cfg, ns, s, call), StepOf(cfg, s, call.op, ns);
            && s'.lru == (if step.None? then s.lru else Lru.Step(cfg.LruConfig(ns), s.lru, step.value, call.now).0)
            && forall k :: KeyNow(cfg, s', k) == KeyNow(cfg, s, k)
  {
  }

  lemma SameKeys(cfg: ManagerConfig, s: Space, k: string, l: string)
    ensures KeyNow(cfg, s, k) == KeyNow(cfg, s, l) <==> k == l
  {
    if cfg.enableVersioning && KeyNow(cfg, s, k) == KeyNow(cfg, s, l) {
      VersionedKeyInjective(s.version, k, s.version, l);
    }
  }

  lemma StepKeepsOrLooks(cfg: ManagerConfig, ns: Namespace, s: Space, op: Op, key: string)
    requires Leaves(cfg, op, ns, key) && StepOf(cfg, s, op, ns).Some?
    ensures var step := StepOf(cfg, s, op, ns).value;
            && Keeps(step, KeyNow(cfg, s, key))
            && (LooksAt(step, KeyNow(cfg, s, key)) <==> SeesAge(op, ns, key))
            && (Evicts(cfg.LruConfig(ns), s.lru, step, KeyNow(cfg, s, key)) ==> ThrowsOut(cfg, s, op, ns, key))
  {
    if op.Get? || op.Set? || op.Delete? {
      SameKeys(cfg, s, op.key, key);
    } else if op.InvalidateRelated? {
      SameKeys(cfg, s, op.maybeKey.value, key);
    }
  }

  // ----- The life of a stored value -----

  ghost predicate LeftAlone(cfg: ManagerConfig, ns: Namespace, s: Space, later: seq<Call>, key: string) {
    forall i :: 0 <= i < |later| ==>
      Leaves(cfg, later[i].op, ns, key) && !ThrowsOut(cfg, Run(cfg, ns, s, later[..i]), later[i].op, ns, key)
  }

  /** A lookup or a clean-up has seen the value too old. */
  predicate SeenTooOld(later: seq<Call>, ns: Namespace, key: string, lives: real, stored: real) {
    exists i :: 0 <= i < |later| && SeesAge(later[i].op, ns, key) && later[i].now - stored > lives
  }

  lemma LeftAloneBefore(cfg: ManagerConfig, ns: Namespace, s: Space, later: seq<Call>, key: string)
    requires later != [] && LeftAlone(cfg, ns, s, later, key)
    ensures LeftAlone(cfg, ns, s, later[..|later| - 1], key)
  {
    var n := |later| - 1;
    forall i | 0 <= i < n
      ensures Leaves(cfg, later[..n][i].op, ns, key)
              && !ThrowsOut(cfg, Run(cfg, ns, s, later[..n][..i]), later[..n][i].op, ns, key)
    {
      assert later[..n][..i] == later[..i] && later[..n][i] == later[i];
    }
  }

  lemma SeenTooOldBefore(later: seq<Call>, ns: Namespace, key: string, lives: real, stored: real)
    requires later != []
    ensures var n := |later| - 1;
            SeenTooOld(later, ns, key, lives, stored)
            <==> SeenTooOld(later[..n], ns, key, lives, stored)
                 || (SeesAge(later[n].op, ns, key) && later[n].now - stored > lives)
  {
    var n := |later| - 1;
    if i :| 0 <= i < n && SeesAge(later[..n][i].op, ns, key) && later[..n][i].now - stored > lives {
      assert later[..n][i] == later[i];
    }
    if i :| 0 <= i < n && SeesAge(later[i].op, ns, key) && later[i].now - stored > lives {
      assert later[..n][i] == later[i];
    }
  }

  /** One call leaves the entry, or drops it because it saw it too old. */
  lemma CallFate(cfg: ManagerConfig, ns: Namespace, s: Space, call: Call, key: string, e: Lru.Entry)
    requires Sound(cfg, ns, s) && Leaves(cfg, call.op, ns, key) && !ThrowsOut(cfg, s, call.op, ns, key)
    requires e in s.lru.entries && e.key == KeyNow(cfg, s, key) && e.ttl.Some?
    ensures var s' := Effect(cfg, ns, s, call);
            && Sound(cfg, ns, s') && KeyNow(cfg, s', key) == e.key
            && Lru.Lookup(s'.lru.entries, e.key)
               == if SeesAge(call.op, ns, key) && call.now - e.stamp > e.ttl.value then None else Some(e)
  {
    CallIsStep(cfg, ns, s, call, key);
    if StepOf(cfg, s, call.op, ns).Some? {
      StepKeepsOrLooks(cfg, ns, s, call.op, key);
      StepFate(cfg.LruConfig(ns), s.lru, StepOf(cfg, s, call.op, ns).value, call.now, e);
    } else {
      Lru.LookupUnique(s.lru.entries, e);
    }
  }

  lemma CallStaysGone(cfg: ManagerConfig, ns: Namespace, s: Space, call: Call, key: string)
    requires Sound(cfg, ns, s) && Leaves(cfg, call.op, ns, key)
    requires Lru.Lookup(s.lru.entries, KeyNow(cfg, s, key)) == None
    ensures var s' := Effect(cfg, ns, s, call);
            && Sound(cfg, ns, s') && KeyNow(cfg, s', key) == KeyNow(cfg, s, key)
            && Lru.Lookup(s'.lru.entries, KeyNow(cfg, s, key)) == None
  {
    CallIsStep(cfg, ns, s, call, key);
    if StepOf(cfg, s, call.op, ns).Some? {
      StepKeepsOrLooks(cfg, ns, s, call.op, key);
      Lru.StepKeepsValid(cfg.LruConfig(ns), s.lru, StepOf(cfg, s, call.op, ns).value, call.now);
      StepStaysGone(cfg.LruConfig(ns), s.lru, StepOf(cfg, s, call.op, ns).value, call.now, KeyNow(cfg, s, key));
    }
  }

  lemma {:induction false} EntryFateInSpace(cfg: ManagerConfig, ns: Namespace, s: Space, later: seq<Call>, key: string, e: Lru.Entry)
    requires Sound(cfg, ns, s) && LeftAlone(cfg, ns, s, later, key)
    requires e in s.lru.entries && e.key == KeyNow(cfg, s, key) && e.ttl.Some?
    ensures var s' := Run(cfg, ns, s, later);
            && Sound(cfg, ns, s') && KeyNow(cfg, s', key) == e.key
            && Lru.Lookup(s'.lru.entries, e.key)
               == if SeenTooOld(later, ns, key, e.ttl.value, e.stamp) then None else Some(e)
    decreases |later|
  {
    if later == [] {
      Lru.LookupUnique(s.lru.entries, e);
    } else {
      var n := |later| - 1;
      var before := Run(cfg, ns, s, later[..n]);
      LeftAloneBefore(cfg, ns, s, later, key);
      SeenTooOldBefore(later, ns, key, e.ttl.value, e.stamp);
      EntryFateInSpace(cfg, ns, s, later[..n], key, e);
      if SeenTooOld(later[..n], ns, key, e.ttl.value, e.stamp) {
        CallStaysGone(cfg, ns, before, later[n], key);
      } else {
        CallFate(cfg, ns, before, later[n], key, e);
      }
    }
  }

  /**
   The times to live of the manager. After a store and any calls that neither replace, delete, clear or
   invalidate the key nor throw it out, a lookup finds the stored value exactly if its time to live has not
   passed now, nor had passed when an earlier lookup or clean-up saw it: the given number of seconds, ten years
   for a value that is never to expire, the default of the namespace, or else the global one.
   */
  lemma SpaceHitIff(cfg: ManagerConfig, ns: Namespace, s: Space, key: string, value: Lru.Value, ttl: Ttl, stored: real,
                    later: seq<Call>, now: real)
    requires Sound(cfg, ns, s) && cfg.LruConfig(ns).maxsize >= 1
    requires LeftAlone(cfg, ns, SpaceSet(cfg, ns, s, key, value, ttl, stored).0, later, key)
    ensures var s' := Run(cfg, ns, SpaceSet(cfg, ns, s, key, value, ttl, stored).0, later);
            SpaceGet(cfg, ns, s', key, now).1
            == if SeenTooOld(later, ns, key, Lives(cfg, ns, ttl), stored) || now - stored > Lives(cfg, ns, ttl) then Lru.Miss
               else Lru.Hit(value)
  {
    var e := StoredEntry(cfg, ns, s, key, value, ttl, stored);
    EntryFateInSpace(cfg, ns, SpaceSet(cfg, ns, s, key, value, ttl, stored).0, later, key, e);
  }

  lemma StoredEntry(cfg: ManagerConfig, ns: Namespace, s: Space, key: string, value: Lru.Value, ttl: Ttl, stored: real)
    returns (e: Lru.Entry)
    requires Sound(cfg, ns, s) && cfg.LruConfig(ns).maxsize >= 1
    ensures e.value == value && e.stamp == stored && e.ttl == Some(Lives(cfg, ns, ttl))
    ensures var first := SpaceSet(cfg, ns, s, key, value, ttl, stored).0;
            Sound(cfg, ns, first) && e in first.lru.entries && e.key == KeyNow(cfg, first, key)
  {
    var seconds := Lives(cfg, ns, ttl);
    e := Lru.Entry(KeyNow(cfg, s, key), value, stored, Some(seconds));
    var entries := SpaceSet(cfg, ns, s, key, value, ttl, stored).0.lru.entries;
    Lru.StepKeepsValid(cfg.LruConfig(ns), s.lru, Lru.Set(e.key, value, Some(seconds)), stored);
    Lru.WithoutKey(s.lru.entries, e.key);
    assert entries[|entries| - 1] == e;
  }

  /** Every namespace that the manager's calls lead to is sound, so the law above holds after any calls. */
  lemma {:induction false} RunSound(cfg: ManagerConfig, ns: Namespace, calls: seq<Call>)
    ensures Sound(cfg, ns, Run(cfg, ns, NEW_SPACE, calls))
  {
    if calls != [] {
      var n := |calls| - 1;
      var s, call := Run(cfg, ns, NEW_SPACE, calls[..n]), calls[n];
      RunSound(cfg, ns, calls[..n]);
      EffectIsSound(cfg, ns, s, call);
    }
  }

  lemma EffectIsSound(cfg: ManagerConfig, ns: Namespace, s: Space, call: Call)
    requires Sound(cfg, ns, s)
    ensures Sound(cfg, ns, Effect(cfg, ns, s, call))
  {
    if StepOf(cfg, s, call.op, ns).Some? {
      StepIsSound(cfg, ns, s, call, StepOf(cfg, s, call.op, ns).value);
    } else {
      KeptOrEmptied(cfg, ns, s, call);
    }
  }

  lemma StepIsSound(cfg: ManagerConfig, ns: Namespace, s: Space, call: Call, step: Lru.Op)
    requires Sound(cfg, ns, s) && StepOf(cfg, s, call.op, ns) == Some(step)
    ensures Effect(cfg, ns, s, call).lru == Lru.Step(cfg.LruConfig(ns), s.lru, step, call.now).0
    ensures Sound(cfg, ns, Effect(cfg, ns, s, call))
  {
    Lru.StepKeepsValid(cfg.LruConfig(ns), s.lru, step, call.now);
  }

  lemma KeptOrEmptied(cfg: ManagerConfig, ns: Namespace, s: Space, call: Call)
    requires StepOf(cfg, s, call.op, ns).None?
    ensures var s' := Effect(cfg, ns, s, call); s'.lru == s.lru || s'.lru.entries == []
  {
  }
}
