/**
 The namespaced, versioned caches of app/core/cache_manager.py, as functions on values: how keys
 carry the version, what each manager call does to one namespace, and why an invalidation leaves
 nothing old to be read.
 */
module CacheSpaces {
  import opened Prelude
  import opened Text
  import opened Lru

  datatype Namespace =
    Link | FileSize | Tmdb | QuarkApi | Strm | Emby | Proxy | Rename | Scrape | General

  const ALL_NAMESPACES := {Link, FileSize, Tmdb, QuarkApi, Strm, Emby, Proxy, Rename, Scrape, General}

  function Dependents(ns: Namespace): set<Namespace> {
    match ns
    case QuarkApi => {Link, FileSize, Proxy}
    case Link => {Proxy}
    case Tmdb => {Rename, Scrape}
    case Emby => {Strm}
    case _ => {}
  }

  datatype Ttl = DefaultTtl | NeverExpire | Seconds(s: real)

  const NEVER_EXPIRE_SECONDS := 315360000.0  // ten years

  datatype ManagerConfig = ManagerConfig(
    ttls: map<Namespace, real>, globalTtl: real,
    sizes: map<Namespace, int>, globalSize: int,
    enableStats: bool, enableVersioning: bool, crossNamespace: bool)
  {
    function DefaultTtlOf(ns: Namespace): real {
      if ns in ttls then ttls[ns] else globalTtl
    }

    function LruConfig(ns: Namespace): Config {
      Config(if ns in sizes then sizes[ns] else globalSize, Some(DefaultTtlOf(ns)), enableStats)
    }
  }

  datatype Space = Space(version: nat, lru: State)

  const NEW_SPACE := Space(1, EMPTY)

  // ----- Versioned keys -----

  function VersionedKey(versioning: bool, version: nat, key: string): string {
    if versioning then "v" + Decimal(version) + ":" + key else key
  }

  /** With versioning on, a stored key determines both the version and the caller's key. */
  lemma VersionedKeyInjective(u: nat, k: string, v: nat, l: string)
    requires VersionedKey(true, u, k) == VersionedKey(true, v, l)
    ensures u == v && k == l
  {
    var a, b := Decimal(u), Decimal(v);
    assert VersionedKey(true, u, k)[1..] == a + [':'] + k && VersionedKey(true, v, l)[1..] == b + [':'] + l;
    NoColonLength(a, k, b, l);
    NoColonLength(b, l, a, k);
    var s, t := "v" + a + ":" + k, "v" + b + ":" + l;
    assert s[1..|a| + 1] == a && s[|a| + 1] == ':' && s[|a| + 2..] == k;
    assert t[1..|b| + 1] == b && t[|b| + 1] == ':' && t[|b| + 2..] == l;
    DecimalInjective(u, v);
  }

  // ----- What one call does to one namespace -----

  datatype Op =
    | Get(ns: Namespace, key: string)
    | Set(ns: Namespace, key: string, value: Value, ttl: Ttl)
    | Delete(ns: Namespace, key: string)
    | ClearNamespace(ns: Namespace)
    | ClearAll
    | InvalidateRelated(ns: Namespace, maybeKey: Option<string>, cascade: bool)
    | IncrementVersion(ns: Namespace, cascade: bool)
    | PeriodicCleanup

  datatype Call = Call(op: Op, now: real)

  function EffectiveSeconds(cfg: ManagerConfig, ns: Namespace, ttl: Ttl): real {
    match ttl
    case DefaultTtl => cfg.DefaultTtlOf(ns)
    case NeverExpire => NEVER_EXPIRE_SECONDS
    case Seconds(s) => s
  }

  function SpaceGet(cfg: ManagerConfig, ns: Namespace, s: Space, key: string, now: real): (Space, Output) {
    var (l, o) := GetStep(cfg.LruConfig(ns), s.lru, VersionedKey(cfg.enableVersioning, s.version, key), now);
    (s.(lru := l), o)
  }

  function SpaceSet(cfg: ManagerConfig, ns: Namespace, s: Space, key: string, value: Value, ttl: Ttl, now: real)
    : (Space, Output)
  {
    var (l, o) := SetStep(cfg.LruConfig(ns), s.lru, VersionedKey(cfg.enableVersioning, s.version, key), value,
                          Some(EffectiveSeconds(cfg, ns, ttl)), now);
    (s.(lru := l), o)
  }

  function SpaceDelete(cfg: ManagerConfig, ns: Namespace, s: Space, key: string): (Space, Output) {
    var (l, o) := DeleteStep(cfg.LruConfig(ns), s.lru, VersionedKey(cfg.enableVersioning, s.version, key));
    (s.(lru := l), o)
  }

  /** Invalidating a whole namespace: the next version when keys carry one, an empty cache otherwise. */
  function Renew(cfg: ManagerConfig, s: Space): Space {
    if cfg.enableVersioning then s.(version := s.version + 1) else s.(lru := s.lru.(entries := []))
  }

  /** An absent or empty key stands for the whole namespace. */
  predicate IsSingleKey(maybeKey: Option<string>) {
    maybeKey.Some? && maybeKey.value != ""
  }

  predicate Cascades(cfg: ManagerConfig, ns: Namespace, cascade: bool, target: Namespace) {
    cascade && cfg.crossNamespace && target in Dependents(ns)
  }

  function Effect(cfg: ManagerConfig, target: Namespace, s: Space, call: Call): Space {
    match call.op
    case Get(ns, key) => if target == ns then SpaceGet(cfg, ns, s, key, call.now).0 else s
    case Set(ns, key, value, ttl) => if target == ns then SpaceSet(cfg, ns, s, key, value, ttl, call.now).0 else s
    case Delete(ns, key) => if target == ns then SpaceDelete(cfg, ns, s, key).0 else s
    case ClearNamespace(ns) => if target == ns then s.(lru := s.lru.(entries := [])) else s
    case ClearAll => s.(lru := s.lru.(entries := []))
    case InvalidateRelated(ns, maybeKey, cascade) =>
      if target == ns && IsSingleKey(maybeKey) then SpaceDelete(cfg, ns, s, maybeKey.value).0
      else if target == ns || Cascades(cfg, ns, cascade, target) then Renew(cfg, s)
      else s
    case IncrementVersion(ns, cascade) =>
      if target == ns || Cascades(cfg, ns, cascade, target) then s.(version := s.version + 1) else s
    case PeriodicCleanup => s.(lru := CleanupStep(cfg.LruConfig(target), s.lru, call.now).0)
  }

  function Run(cfg: ManagerConfig, target: Namespace, start: Space, calls: seq<Call>): Space {
    if calls == [] then start
    else Effect(cfg, target, Run(cfg, target, start, calls[..|calls| - 1]), calls[|calls| - 1])
  }

  // ----- Invalidation is complete -----

  /** Every stored key carries a version that the namespace has already reached. */
  ghost predicate Current(cfg: ManagerConfig, s: Space) {
    cfg.enableVersioning ==>
      forall e :: e in s.lru.entries ==> exists u: nat, k :: u <= s.version && e.key == VersionedKey(true, u, k)
  }

  ghost predicate StoredBy(calls: seq<Call>, ns: Namespace, key: string, value: Value) {
    exists i :: 0 <= i < |calls| && calls[i].op.Set? && calls[i].op.ns == ns
                && calls[i].op.key == key && calls[i].op.value == value
  }

  /** What is stored for `key` under version `base` or later was stored by one of `calls`. */
  ghost predicate OnlyFrom(cfg: ManagerConfig, ns: Namespace, s: Space, key: string, base: nat, calls: seq<Call>) {
    && base <= s.version
    && forall e, u: nat :: e in s.lru.entries && base <= u && e.key == VersionedKey(cfg.enableVersioning, u, key) ==>
                        StoredBy(calls, ns, key, e.value)
  }

  /** A call keeps entries or drops them; the only entry it can add is the one it stores. */
  lemma EffectEntries(cfg: ManagerConfig, target: Namespace, s: Space, call: Call)
    ensures var s' := Effect(cfg, target, s, call);
            && s.version <= s'.version
            && forall e :: e in s'.lru.entries ==>
                 || e in s.lru.entries
                 || (&& call.op.Set? && call.op.ns == target && e.value == call.op.value && s'.version == s.version
                     && e.key == VersionedKey(cfg.enableVersioning, s.version, call.op.key))
  {
    if call.op.Set? && call.op.ns == target {
      var k := VersionedKey(cfg.enableVersioning, s.version, call.op.key);
      var rest := Without(s.lru.entries, k);
      assert forall e :: e in rest ==> e in s.lru.entries;
    }
  }

  lemma EffectKeepsCurrent(cfg: ManagerConfig, target: Namespace, s: Space, call: Call)
    requires Current(cfg, s)
    ensures Current(cfg, Effect(cfg, target, s, call))
  {
    EffectEntries(cfg, target, s, call);
    var s' := Effect(cfg, target, s, call);
    if cfg.enableVersioning {
      forall e | e in s'.lru.entries
        ensures exists u: nat, k :: u <= s'.version && e.key == VersionedKey(true, u, k)
      {
        if e in s.lru.entries {
          var u: nat, k :| u <= s.version && e.key == VersionedKey(true, u, k);
        }
      }
    }
  }

  lemma {:induction false} RunCurrent(cfg: ManagerConfig, target: Namespace, calls: seq<Call>)
    ensures Current(cfg, Run(cfg, target, NEW_SPACE, calls))
  {
    if calls != [] {
      RunCurrent(cfg, target, calls[..|calls| - 1]);
      EffectKeepsCurrent(cfg, target, Run(cfg, target, NEW_SPACE, calls[..|calls| - 1]), calls[|calls| - 1]);
    }
  }

  lemma EffectKeepsOnlyFrom(cfg: ManagerConfig, ns: Namespace, s: Space, key: string, base: nat, calls: seq<Call>, call: Call)
    requires OnlyFrom(cfg, ns, s, key, base, calls)
    ensures OnlyFrom(cfg, ns, Effect(cfg, ns, s, call), key, base, calls + [call])
  {
    EffectEntries(cfg, ns, s, call);
    var s' := Effect(cfg, ns, s, call);
    var longer := calls + [call];
    forall e, u: nat | e in s'.lru.entries && base <= u && e.key == VersionedKey(cfg.enableVersioning, u, key)
      ensures StoredBy(longer, ns, key, e.value)
    {
      if e in s.lru.entries {
        var i :| 0 <= i < |calls| && calls[i].op.Set? && calls[i].op.ns == ns
                 && calls[i].op.key == key && calls[i].op.value == e.value;
        assert longer[i] == calls[i];
      } else {
        if cfg.enableVersioning {
          VersionedKeyInjective(u, key, s.version, call.op.key);
        }
        assert longer[|calls|] == call;
      }
    }
  }

  lemma {:induction false} RunKeepsOnlyFrom(cfg: ManagerConfig, ns: Namespace, s: Space, key: string, base: nat, calls: seq<Call>)
    requires OnlyFrom(cfg, ns, s, key, base, [])
    ensures OnlyFrom(cfg, ns, Run(cfg, ns, s, calls), key, base, calls)
  {
    if calls != [] {
      var before, last := calls[..|calls| - 1], calls[|calls| - 1];
      RunKeepsOnlyFrom(cfg, ns, s, key, base, before);
      EffectKeepsOnlyFrom(cfg, ns, Run(cfg, ns, s, before), key, base, before, last);
      assert before + [last] == calls;
    }
  }

  /** The call drops `key` of `target`: directly, with its whole namespace or all of them, by a new version, or by the cascade. */
  ghost predicate Invalidates(cfg: ManagerConfig, op: Op, target: Namespace, key: string) {
    match op
    case InvalidateRelated(ns, maybeKey, cascade) =>
      || (ns == target && (!IsSingleKey(maybeKey) || maybeKey.value == key))
      || (ns != target && Cascades(cfg, ns, cascade, target))
    case IncrementVersion(ns, cascade) => cfg.enableVersioning && (ns == target || Cascades(cfg, ns, cascade, target))
    case Delete(ns, k) => ns == target && k == key
    case ClearNamespace(ns) => ns == target
    case ClearAll => true
    case _ => false
  }

  lemma InvalidationDrops(cfg: ManagerConfig, target: Namespace, s: Space, key: string, call: Call)
    requires Current(cfg, s) && Invalidates(cfg, call.op, target, key)
    ensures var s' := Effect(cfg, target, s, call);
            OnlyFrom(cfg, target, s', key, s'.version, [])
  {
    var s' := Effect(cfg, target, s, call);
    InvalidationLeavesOldKeys(cfg, target, s, key, call);
    forall e, u: nat | e in s'.lru.entries && s'.version <= u && e.key == VersionedKey(cfg.enableVersioning, u, key)
      ensures false
    {
      if cfg.enableVersioning {
        StoredVersionIsOld(cfg, s, key, u, e);
      }
    }
  }

  lemma StoredVersionIsOld(cfg: ManagerConfig, s: Space, key: string, u: nat, e: Entry)
    requires cfg.enableVersioning && Current(cfg, s) && e in s.lru.entries && e.key == VersionedKey(true, u, key)
    ensures u <= s.version
  {
    var v: nat, l :| v <= s.version && e.key == VersionedKey(true, v, l);
    VersionedKeyInjective(u, key, v, l);
  }

  /** What an invalidation leaves is old, and reaches the new version only under other keys. */
  lemma InvalidationLeavesOldKeys(cfg: ManagerConfig, target: Namespace, s: Space, key: string, call: Call)
    requires Invalidates(cfg, call.op, target, key)
    ensures var s' := Effect(cfg, target, s, call);
            forall e :: e in s'.lru.entries ==>
              && e in s.lru.entries
              && (cfg.enableVersioning ==> s.version < s'.version || e.key != VersionedKey(true, s.version, key))
              && (!cfg.enableVersioning ==> e.key != key)
  {
    var k := VersionedKey(cfg.enableVersioning, s.version, key);
    assert forall e :: e in Without(s.lru.entries, k) ==> KeyIsNot(k)(e);
  }

  /**
   Invalidation is complete. After any calls `before`, an invalidation that covers (`target`, `key`) and
   any calls `later`, a lookup of `key` in `target` can only return a value that one of `later` stored.
   */
  lemma InvalidationComplete(cfg: ManagerConfig, before: seq<Call>, call: Call, later: seq<Call>,
                             target: Namespace, key: string, now: real)
    requires Invalidates(cfg, call.op, target, key)
    ensures var s := Run(cfg, target, Effect(cfg, target, Run(cfg, target, NEW_SPACE, before), call), later);
            var o := SpaceGet(cfg, target, s, key, now).1;
            o.Hit? ==> StoredBy(later, target, key, o.value)
  {
    var s0 := Run(cfg, target, NEW_SPACE, before);
    RunCurrent(cfg, target, before);
    InvalidationDrops(cfg, target, s0, key, call);
    var s1 := Effect(cfg, target, s0, call);
    RunKeepsOnlyFrom(cfg, target, s1, key, s1.version, later);
    var s := Run(cfg, target, s1, later);
    var stored := Lookup(s.lru.entries, VersionedKey(cfg.enableVersioning, s.version, key));
    assert stored.Some? ==> stored.value in s.lru.entries;
  }

  // ----- One level of cascade reaches everything -----

  ghost predicate DependencyPath(p: seq<Namespace>) {
    forall i :: 0 <= i < |p| - 1 ==> p[i + 1] in Dependents(p[i])
  }

  /** The dependency graph is transitively closed, so cascading one level covers every reachable namespace. */
  lemma {:induction false} OneLevelReachesAll(p: seq<Namespace>)
    requires |p| >= 2 && DependencyPath(p)
    ensures p[|p| - 1] in Dependents(p[0]) && p[|p| - 1] != p[0]
  {
    assert p[1] in Dependents(p[0]);
    if |p| > 2 {
      OneLevelReachesAll(p[1..]);
    }
  }

  /** Invalidating a namespace with the cascade on covers every key of every namespace that depends on it, however far. */
  lemma CascadeCoversReachable(cfg: ManagerConfig, p: seq<Namespace>, maybeKey: Option<string>, key: string)
    requires p != [] && DependencyPath(p)
    requires cfg.crossNamespace && !IsSingleKey(maybeKey)
    ensures Invalidates(cfg, InvalidateRelated(p[0], maybeKey, true), p[|p| - 1], key)
  {
    if |p| >= 2 {
      OneLevelReachesAll(p);
    }
  }

  // ----- Whom an invalidation reaches -----

  /** The first namespace holds what is derived from the second. */
  predicate DerivedFrom(target: Namespace, ns: Namespace) {
    || (ns == QuarkApi && (target == Link || target == FileSize || target == Proxy))
    || (ns == Link && target == Proxy)
    || (ns == Tmdb && (target == Rename || target == Scrape))
    || (ns == Emby && target == Strm)
  }

  /**
   Invalidating a whole namespace, for which an empty key also stands, reaches that namespace and, with the cascade
   on, exactly those that are derived from it. With versioning on each of them moves on by one version and loses
   nothing; with versioning off each is emptied. All others stay as they are.
   */
  lemma InvalidationReaches(cfg: ManagerConfig, target: Namespace, s: Space, ns: Namespace, maybeKey: Option<string>,
                            cascade: bool, now: real)
    requires maybeKey == None || maybeKey == Some("")
    ensures var s' := Effect(cfg, target, s, Call(InvalidateRelated(ns, maybeKey, cascade), now));
            if target == ns || (cascade && cfg.crossNamespace && DerivedFrom(target, ns))
            then s' == if cfg.enableVersioning then Space(s.version + 1, s.lru) else Space(s.version, State([], s.lru.stats))
            else s' == s
  {
  }

  /** A new version reaches the same namespaces, with versioning on or off, and loses nothing; clearing empties one or all. */
  lemma VersionsAndClearing(cfg: ManagerConfig, target: Namespace, s: Space, ns: Namespace, cascade: bool, now: real)
    ensures Effect(cfg, target, s, Call(IncrementVersion(ns, cascade), now))
            == if target == ns || (cascade && cfg.crossNamespace && DerivedFrom(target, ns)) then Space(s.version + 1, s.lru) else s
    ensures Effect(cfg, target, s, Call(ClearNamespace(ns), now))
            == if target == ns then Space(s.version, State([], s.lru.stats)) else s
    ensures Effect(cfg, target, s, Call(ClearAll, now)) == Space(s.version, State([], s.lru.stats))
  {
  }

  /** Invalidating one key deletes its entry and no other, and cascades all the same. */
  lemma KeyInvalidationReaches(cfg: ManagerConfig, target: Namespace, s: Space, ns: Namespace, key: string, cascade: bool, now: real)
    requires key != ""
    ensures var s' := Effect(cfg, target, s, Call(InvalidateRelated(ns, Some(key), cascade), now));
            && (target == ns ==> s'.version == s.version && OnlyLost(s, s', VersionedKey(cfg.enableVersioning, s.version, key)))
            && (target != ns ==>
                  s' == if !(cascade && cfg.crossNamespace && DerivedFrom(target, ns)) then s
                        else if cfg.enableVersioning then Space(s.version + 1, s.lru)
                        else Space(s.version, State([], s.lru.stats)))
  {
    if target == ns {
      DeletesOne(cfg, ns, s, key);
    }
  }

  ghost predicate OnlyLost(s: Space, s': Space, k: string) {
    forall e :: e in s'.lru.entries <==> e in s.lru.entries && e.key != k
  }

  lemma DeletesOne(cfg: ManagerConfig, ns: Namespace, s: Space, key: string)
    ensures OnlyLost(s, SpaceDelete(cfg, ns, s, key).0, VersionedKey(cfg.enableVersioning, s.version, key))
  {
    var k := VersionedKey(cfg.enableVersioning, s.version, key);
    assert forall e :: e in Without(s.lru.entries, k) <==> e in s.lru.entries && KeyIsNot(k)(e);
  }
}
