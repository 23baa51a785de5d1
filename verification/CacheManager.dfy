/** The cache manager object of app/core/cache_manager.py: one versioned cache object a namespace, counters and an event log. */
module CacheManager {
  import opened Prelude
  import Lru
  import Spaces = CacheSpaces
  import opened CacheSpaces

  const MAX_INVALIDATION_LOG_SIZE: nat := 100

  datatype Totals = Totals(hits: nat, misses: nat, sets: nat, deletes: nat, invalidations: nat)

  datatype LogItem = LogItem(timestamp: real, ns: Namespace, maybeKey: Option<string>, cascade: bool, cascaded: set<Namespace>)

  /** What one call does to all namespaces. */
  function EffectOnAll(cfg: ManagerConfig, spaces: map<Namespace, Space>, call: Call): map<Namespace, Space> {
    map n | n in spaces :: Effect(cfg, n, spaces[n], call)
  }

  lemma Listed(n: Namespace)
    ensures n in ALL_NAMESPACES
  {
    match n
    case Link => case FileSize => case Tmdb => case QuarkApi => case Strm =>
    case Emby => case Proxy => case Rename => case Scrape => case General =>
  }

  function RenewAll(cfg: ManagerConfig, spaces: map<Namespace, Space>, which: set<Namespace>): map<Namespace, Space> {
    map n | n in spaces :: if n in which then Renew(cfg, spaces[n]) else spaces[n]
  }

  /** The specified effect of an invalidation is the primary change followed by the cascade. */
  lemma InvalidationInTwoParts(cfg: ManagerConfig, spaces: map<Namespace, Space>, ns: Namespace,
                               maybeKey: Option<string>, cascade: bool, now: real)
    requires ns in spaces
    ensures var first := if IsSingleKey(maybeKey) then SpaceDelete(cfg, ns, spaces[ns], maybeKey.value).0
                         else Renew(cfg, spaces[ns]);
            EffectOnAll(cfg, spaces, Call(Spaces.InvalidateRelated(ns, maybeKey, cascade), now))
            == RenewAll(cfg, spaces[ns := first], if cascade && cfg.crossNamespace then Dependents(ns) else {})
  {
    assert ns !in Dependents(ns);
  }

  /** Lookups, stores and deletions touch no other namespace. */
  lemma LocalEffect(cfg: ManagerConfig, spaces: map<Namespace, Space>, call: Call)
    requires call.op.Get? || call.op.Set? || call.op.Delete?
    requires call.op.ns in spaces
    ensures EffectOnAll(cfg, spaces, call) == spaces[call.op.ns := Effect(cfg, call.op.ns, spaces[call.op.ns], call)]
  {
    forall n | n in spaces && n != call.op.ns
      ensures Effect(cfg, n, spaces[n], call) == spaces[n]
    {
    }
  }

  /** The newest `limit` items. */
  function Newest<T>(s: seq<T>, limit: nat): seq<T> {
    if |s| > limit then s[|s| - limit..] else s
  }

  class NamespacedCache {
    const ns: Namespace
    const cfg: ManagerConfig
    const lru: Lru.LruCache
    var version: nat

    function View(): Space
      reads this, lru
    {
      Space(version, lru.View())
    }

    ghost predicate Ok()
      reads this, lru
    {
      lru.cfg == cfg.LruConfig(ns) && lru.Ok()
    }

    constructor (cfg: ManagerConfig, ns: Namespace)
      ensures Ok() && fresh(lru) && this.ns == ns && this.cfg == cfg
      ensures View() == NEW_SPACE
    {
      this.ns, this.cfg := ns, cfg;
      lru := new Lru.LruCache(if ns in cfg.sizes then cfg.sizes[ns] else cfg.globalSize,
                              Some(cfg.DefaultTtlOf(ns)), cfg.enableStats);
      version := 1;
    }

    method Get(key: string, now: real) returns (r: Lru.Output)
      requires Ok()
      modifies lru
      ensures Ok() && (View(), r) == SpaceGet(cfg, ns, old(View()), key, now)
    {
      r := lru.Get(VersionedKey(cfg.enableVersioning, version, key), now);
    }

    method Set(key: string, value: Lru.Value, ttl: Ttl, now: real) returns (r: Lru.Output)
      requires Ok()
      modifies lru
      ensures Ok() && (View(), r) == SpaceSet(cfg, ns, old(View()), key, value, ttl, now)
    {
      var seconds;
      match ttl {
        case DefaultTtl => seconds := cfg.DefaultTtlOf(ns);
        case NeverExpire => seconds := NEVER_EXPIRE_SECONDS;
        case Seconds(s) => seconds := s;
      }
      r := lru.Set(VersionedKey(cfg.enableVersioning, version, key), value, Some(seconds), now);
    }

    method Delete(key: string) returns (r: Lru.Output)
      requires Ok()
      modifies lru
      ensures Ok() && (View(), r) == SpaceDelete(cfg, ns, old(View()), key)
    {
      r := lru.Delete(VersionedKey(cfg.enableVersioning, version, key));
    }

    method Clear()
      requires Ok()
      modifies lru
      ensures Ok() && View() == old(View()).(lru := old(View()).lru.(entries := []))
    {
      var _ := lru.Clear();
    }

    method IncrementVersion()
      requires Ok()
      modifies `version
      ensures Ok() && View() == old(View()).(version := old(version) + 1)
    {
      version := version + 1;
    }

    method CleanupExpired(now: real)
      requires Ok()
      modifies lru
      ensures Ok() && View() == old(View()).(lru := Lru.CleanupStep(cfg.LruConfig(ns), old(View()).lru, now).0)
    {
      var _ := lru.CleanupExpired(now);
    }
  }

  /**
   The manager. Each namespace's cache is held by value here; `NamespacedCache` above is the object
   that performs the same per-namespace functions in place.
   */
  class Manager {
    const cfg: ManagerConfig
    var spaces: map<Namespace, Space>
    var totals: Totals
    var log: seq<LogItem>

    ghost predicate Ok()
      reads this
    {
      (forall n :: n in spaces) && |log| <= MAX_INVALIDATION_LOG_SIZE
    }

    constructor (cfg: ManagerConfig)
      ensures Ok() && this.cfg == cfg && (forall n :: spaces[n] == NEW_SPACE)
      ensures totals == Totals(0, 0, 0, 0, 0) && log == []
    {
      this.cfg := cfg;
      var built: map<Namespace, Space> := map[];
      var todo := ALL_NAMESPACES;
      while todo != {}
        invariant todo <= ALL_NAMESPACES
        invariant built == map n | n in ALL_NAMESPACES - todo :: NEW_SPACE
        decreases |todo|
      {
        var ns :| ns in todo;
        built := built[ns := NEW_SPACE];
        todo := todo - {ns};
      }
      forall n: Namespace ensures n in ALL_NAMESPACES { Listed(n); }
      spaces := built;
      totals := Totals(0, 0, 0, 0, 0);
      log := [];
    }

    method Get(ns: Namespace, key: string, now: real) returns (value: Lru.Value)
      requires Ok()
      modifies this
      ensures Ok() && spaces == EffectOnAll(cfg, old(spaces), Call(Spaces.Get(ns, key), now))
      ensures var o := SpaceGet(cfg, ns, old(spaces)[ns], key, now).1;
              value == if o.Hit? then o.value else Lru.Nil
      ensures totals == if value != Lru.Nil then old(totals).(hits := old(totals.hits) + 1)
                        else old(totals).(misses := old(totals.misses) + 1)
      ensures log == old(log)
    {
      LocalEffect(cfg, spaces, Call(Spaces.Get(ns, key), now));
      var (s, o) := SpaceGet(cfg, ns, spaces[ns], key, now);
      spaces := spaces[ns := s];
      value := if o.Hit? then o.value else Lru.Nil;
      if value != Lru.Nil {
        totals := totals.(hits := totals.hits + 1);
      } else {
        totals := totals.(misses := totals.misses + 1);
      }
    }

    /** A cache of size zero or less makes the store fail before the counter moves. */
    method Set(ns: Namespace, key: string, value: Lru.Value, ttl: Ttl, now: real) returns (stored: bool)
      requires Ok()
      modifies this
      ensures Ok() && spaces == EffectOnAll(cfg, old(spaces), Call(Spaces.Set(ns, key, value, ttl), now))
      ensures cfg.LruConfig(ns).maxsize >= 1 ==> stored
      ensures totals == if stored then old(totals).(sets := old(totals.sets) + 1) else old(totals)
      ensures log == old(log)
    {
      LocalEffect(cfg, spaces, Call(Spaces.Set(ns, key, value, ttl), now));
      var (s, o) := SpaceSet(cfg, ns, spaces[ns], key, value, ttl, now);
      spaces := spaces[ns := s];
      stored := o.Stored?;
      if stored {
        totals := totals.(sets := totals.sets + 1);
      }
    }

    method Delete(ns: Namespace, key: string) returns (removed: bool)
      requires Ok()
      modifies this
      ensures Ok() && spaces == EffectOnAll(cfg, old(spaces), Call(Spaces.Delete(ns, key), 0.0))
      ensures removed <==> SpaceDelete(cfg, ns, old(spaces)[ns], key).1 == Lru.Answer(true)
      ensures totals == if removed then old(totals).(deletes := old(totals.deletes) + 1) else old(totals)
      ensures log == old(log)
    {
      LocalEffect(cfg, spaces, Call(Spaces.Delete(ns, key), 0.0));
      var (s, o) := SpaceDelete(cfg, ns, spaces[ns], key);
      spaces := spaces[ns := s];
      removed := o == Lru.Answer(true);
      if removed {
        totals := totals.(deletes := totals.deletes + 1);
      }
    }

    /** Invalidates one key or a whole namespace, then, when asked, every namespace that depends on it. */
    method InvalidateRelated(ns: Namespace, maybeKey: Option<string>, cascade: bool, now: real)
      returns (cascaded: set<Namespace>)
      requires Ok()
      modifies this
      ensures Ok() && spaces == EffectOnAll(cfg, old(spaces), Call(Spaces.InvalidateRelated(ns, maybeKey, cascade), now))
      ensures cascaded == if cascade && cfg.crossNamespace then Dependents(ns) else {}
      ensures log == Newest(old(log) + [LogItem(now, ns, maybeKey, cascade, cascaded)], 100)
      ensures var absent := IsSingleKey(maybeKey)
                            && SpaceDelete(cfg, ns, old(spaces)[ns], maybeKey.value).1 == Lru.Answer(false);
              totals == old(totals).(invalidations := old(totals.invalidations) + (if absent then 0 else 1) + |cascaded|)
    {
      InvalidationInTwoParts(cfg, spaces, ns, maybeKey, cascade, now);
      InvalidatePrimary(ns, maybeKey);
      cascaded := {};
      if cascade && cfg.crossNamespace {
        CascadeTo(Dependents(ns));
        cascaded := Dependents(ns);
      }
      AppendLog(LogItem(now, ns, maybeKey, cascade, cascaded));
    }

    method InvalidatePrimary(ns: Namespace, maybeKey: Option<string>)
      requires Ok()
      modifies this
      ensures Ok() && log == old(log)
      ensures spaces == old(spaces)[ns := if IsSingleKey(maybeKey) then SpaceDelete(cfg, ns, old(spaces)[ns], maybeKey.value).0
                                          else Renew(cfg, old(spaces)[ns])]
      ensures var absent := IsSingleKey(maybeKey)
                            && SpaceDelete(cfg, ns, old(spaces)[ns], maybeKey.value).1 == Lru.Answer(false);
              totals == old(totals).(invalidations := old(totals.invalidations) + if absent then 0 else 1)
    {
      if IsSingleKey(maybeKey) {
        var (s, o) := SpaceDelete(cfg, ns, spaces[ns], maybeKey.value);
        spaces := spaces[ns := s];
        if o == Lru.Answer(true) {
          totals := totals.(invalidations := totals.invalidations + 1);
        }
      } else {
        spaces := spaces[ns := Renew(cfg, spaces[ns])];
        totals := totals.(invalidations := totals.invalidations + 1);
      }
    }

    method CascadeTo(dependents: set<Namespace>)
      requires Ok()
      modifies this
      ensures Ok() && log == old(log)
      ensures spaces == RenewAll(cfg, old(spaces), dependents)
      ensures totals == old(totals).(invalidations := old(totals.invalidations) + |dependents|)
    {
      var todo := dependents;
      while todo != {}
        invariant Ok() && log == old(log) && todo <= dependents
        invariant spaces == RenewAll(cfg, old(spaces), dependents - todo)
        invariant totals == old(totals).(invalidations := old(totals.invalidations) + |dependents| - |todo|)
        decreases |todo|
      {
        var dep :| dep in todo;
        spaces := spaces[dep := Renew(cfg, spaces[dep])];
        totals := totals.(invalidations := totals.invalidations + 1);
        todo := todo - {dep};
      }
    }

    /** Keeps the newest events only. */
    method AppendLog(item: LogItem)
      requires Ok()
      modifies `log
      ensures Ok() && log == Newest(old(log) + [item], 100)
    {
      log := log + [item];
      if |log| > MAX_INVALIDATION_LOG_SIZE {
        log := log[|log| - MAX_INVALIDATION_LOG_SIZE..];
      }
    }
  }
}
