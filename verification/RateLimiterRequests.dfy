/**
 The rate limiter on requests with a client and a verb: which of the two configurations judges whom, and
 what every decision is, from the decisions before it.
 */
module RateLimiterRequests {
  import opened Prelude
  import opened Text
  import opened RateLimiter

  /** A request with the two clock readings of its check. */
  datatype Arrival = Arrival(request: Request, now: real, cleanupNow: real)

  function EventOf(a: Arrival): Event {
    Event(BucketOf(a.request), a.now, a.cleanupNow)
  }

  function Events(arrivals: seq<Arrival>): (trace: seq<Event>)
    ensures |trace| == |arrivals|
    ensures forall i :: 0 <= i < |arrivals| ==> trace[i] == EventOf(arrivals[i])
  {
    seq(|arrivals|, i requires 0 <= i < |arrivals| => EventOf(arrivals[i]))
  }

  /** What the limiter answers to the `i`-th request. */
  function Answer(limits: Limits, start: real, arrivals: seq<Arrival>, i: nat): Decision
    requires i < |arrivals|
  {
    DecisionAt(limits, start, Events(arrivals), i)
  }

  // ----- Verbs -----

  /** The verb is one of the three that only read, in any mixture of cases. */
  predicate Reads(verb: string) {
    Spells(verb, "get") || Spells(verb, "head") || Spells(verb, "options")
  }

  lemma SafeVerbsRead(verb: string)
    ensures IsSafe(verb) <==> Reads(verb)
  {
    UpperSpells(verb, "get", "GET");
    UpperSpells(verb, "head", "HEAD");
    UpperSpells(verb, "options", "OPTIONS");
  }

  function BucketFor(client: string, reading: bool): string {
    client + ":" + if reading then "read" else "write"
  }

  function LimitFor(limits: Limits, reading: bool): Config {
    if reading then limits.read else limits.write
  }

  /** The requests of one client and one kind. */
  predicate IsFrom(a: Arrival, client: string, reading: bool) {
    a.request.clientId == client && Reads(a.request.verb) == reading
  }

  lemma BucketMeans(limits: Limits, a: Arrival, client: string, reading: bool)
    ensures BucketOf(a.request) == BucketFor(client, reading) <==> IsFrom(a, client, reading)
    ensures ConfigOf(limits, BucketFor(client, reading)) == LimitFor(limits, reading)
  {
    SafeVerbsRead(a.request.verb);
    var mine, theirs := BucketFor(client, reading), BucketOf(a.request);
    assert mine[|mine| - 1] == (if reading then 'd' else 'e');
    assert theirs[|theirs| - 1] == (if IsSafe(a.request.verb) then 'd' else 'e');
    assert mine[..|client|] == client && theirs[..|a.request.clientId|] == a.request.clientId;
  }

  // ----- What is accepted -----

  /** The times of the accepted requests of one client and one kind. */
  function AcceptedFrom(limits: Limits, start: real, arrivals: seq<Arrival>, client: string, reading: bool): seq<real> {
    if arrivals == [] then []
    else
      var n := |arrivals| - 1;
      AcceptedFrom(limits, start, arrivals[..n], client, reading)
      + if IsFrom(arrivals[n], client, reading) && Answer(limits, start, arrivals, n) == Allowed then [arrivals[n].now] else []
  }

  lemma {:induction false} AcceptedFromBucket(limits: Limits, start: real, arrivals: seq<Arrival>, client: string, reading: bool)
    ensures AcceptedFrom(limits, start, arrivals, client, reading)
            == Accepted(limits, start, Events(arrivals), BucketFor(client, reading))
  {
    if arrivals != [] {
      var n := |arrivals| - 1;
      AcceptedFromBucket(limits, start, arrivals[..n], client, reading);
      BucketMeans(limits, arrivals[n], client, reading);
      assert Events(arrivals)[..n] == Events(arrivals[..n]);
    }
  }

  /** How many of them fall into the window that ends at `t`. */
  function CountIn(times: seq<real>, seconds: int, t: real): nat {
    if times == [] then 0
    else
      var n := |times| - 1;
      CountIn(times[..n], seconds, t) + if t - seconds as real < times[n] <= t then 1 else 0
  }

  lemma {:induction false} CountIsWindow(cfg: Config, times: seq<real>, t: real)
    ensures CountIn(times, cfg.seconds, t) == |WindowOf(cfg, times, t)|
  {
    if times != [] {
      var n := |times| - 1;
      CountIsWindow(cfg, times[..n], t);
      assert times == times[..n] + [times[n]];
      FilterConcat(InWindow(cfg, t), times[..n], [times[n]]);
      FilterOne(InWindow(cfg, t), times[n]);
    }
  }

  /**
   Reading and writing are limited apart. In every run and for every client, the requests accepted in any
   window with the verbs GET, HEAD and OPTIONS, in whatever cases they are written, number at most the read
   limit; those with any other verb number at most the write limit.
   */
  lemma VerbsAreLimited(limits: Limits, start: real, arrivals: seq<Arrival>, client: string, t: real)
    requires Monotone(start, Events(arrivals))
    ensures CountIn(AcceptedFrom(limits, start, arrivals, client, true), limits.read.seconds, t)
            <= if limits.read.requests < 0 then 0 else limits.read.requests
    ensures CountIn(AcceptedFrom(limits, start, arrivals, client, false), limits.write.seconds, t)
            <= if limits.write.requests < 0 then 0 else limits.write.requests
  {
    KindIsLimited(limits, start, arrivals, client, true, t);
    KindIsLimited(limits, start, arrivals, client, false, t);
  }

  lemma KindIsLimited(limits: Limits, start: real, arrivals: seq<Arrival>, client: string, reading: bool, t: real)
    requires Monotone(start, Events(arrivals))
    ensures var cfg := LimitFor(limits, reading);
            CountIn(AcceptedFrom(limits, start, arrivals, client, reading), cfg.seconds, t)
            <= if cfg.requests < 0 then 0 else cfg.requests
  {
    var b := BucketFor(client, reading);
    BucketMeans(limits, Arrival(Request(client, "get"), 0.0, 0.0), client, reading);
    AcceptedFromBucket(limits, start, arrivals, client, reading);
    WindowBound(limits, start, Events(arrivals), b, t);
    CountIsWindow(LimitFor(limits, reading), AcceptedFrom(limits, start, arrivals, client, reading), t);
  }

  // ----- Every decision, from the earlier ones -----

  /** An earlier overflow of the same client and kind whose block is still in force. */
  predicate BlocksAt(limits: Limits, start: real, arrivals: seq<Arrival>, i: nat, k: nat, client: string, reading: bool)
    requires i < k < |arrivals|
  {
    && IsFrom(arrivals[i], client, reading) && Answer(limits, start, arrivals, i).Overflow?
    && arrivals[k].now < arrivals[i].now + LimitFor(limits, reading).blockDuration as real
  }

  ghost predicate IsBlocked(limits: Limits, start: real, arrivals: seq<Arrival>, k: nat, client: string, reading: bool)
    requires k < |arrivals|
  {
    exists i :: 0 <= i < k && BlocksAt(limits, start, arrivals, i, k, client, reading)
  }

  /** The reference is blocked only by an overflow. */
  lemma {:induction false} BlockHasACause(limits: Limits, trace: seq<Event>, bucket: string) returns (i: nat)
    ensures var until := IdealRun(limits, trace, bucket).blockedUntil;
            until == 0.0
            || (&& i < |trace| && trace[i].bucket == bucket && IdealDecision(limits, trace, i).Overflow?
                && until == trace[i].now + ConfigOf(limits, bucket).blockDuration as real)
  {
    i := 0;
    if trace != [] {
      var n := |trace| - 1;
      if trace[n].bucket == bucket && IdealDecision(limits, trace, n).Overflow? {
        i := n;
      } else {
        i := BlockHasACause(limits, trace[..n], bucket);
        if i < n {
          assert trace[..n][..i] == trace[..i];
        }
      }
    }
  }

  lemma {:induction false} ClockIsNotNegative(start: real, trace: seq<Event>, k: nat)
    requires k < |trace| && Monotone(start, trace)
    ensures 0.0 <= trace[k].now
    decreases |trace|
  {
    var n := |trace| - 1;
    if k < n {
      ClockIsNotNegative(start, trace[..n], k);
    } else if n > 0 {
      ClockIsNotNegative(start, trace[..n], n - 1);
    }
  }

  /** A block in force goes back to an earlier overflow, and every such overflow blocks. */
  lemma StillBlockedIff(limits: Limits, start: real, arrivals: seq<Arrival>, k: nat, client: string, reading: bool)
    requires k < |arrivals| && Monotone(start, Events(arrivals)) && IsFrom(arrivals[k], client, reading)
    requires LimitFor(limits, reading).requests >= 1
    ensures Answer(limits, start, arrivals, k).StillBlocked? <==> IsBlocked(limits, start, arrivals, k, client, reading)
  {
    var trace, b := Events(arrivals), BucketFor(client, reading);
    BucketMeans(limits, arrivals[k], client, reading);
    if IsBlocked(limits, start, arrivals, k, client, reading) {
      var i :| 0 <= i < k && BlocksAt(limits, start, arrivals, i, k, client, reading);
      BucketMeans(limits, arrivals[i], client, reading);
      BlockHolds(limits, start, trace, i, k);
    }
    if Answer(limits, start, arrivals, k).StillBlocked? {
      DecisionsMatchHistory(limits, start, trace, k);
      ClockIsNotNegative(start, trace, k);
      var i := BlockHasACause(limits, trace[..k], b);
      assert trace[..k][..i] == trace[..i];
      BucketMeans(limits, arrivals[i], client, reading);
      DecisionsMatchHistory(limits, start, trace, i);
      assert BlocksAt(limits, start, arrivals, i, k, client, reading);
    }
  }

  lemma CountIsRecent(cfg: Config, history: seq<real>, now: real)
    requires forall h :: h in history ==> h <= now
    ensures CountIn(history, cfg.seconds, now) == |RecentOf(cfg, history, now)|
  {
    CountIsWindow(cfg, history, now);
    FilterAgree(InWindow(cfg, now), NewerThan(now - cfg.seconds as real), history);
  }

  /** The reference's window holds what was accepted from the client for this kind. */
  lemma HistoryCount(limits: Limits, start: real, arrivals: seq<Arrival>, k: nat, client: string, reading: bool)
    requires k < |arrivals| && Monotone(start, Events(arrivals)) && LimitFor(limits, reading).requests >= 1
    ensures var cfg, b, now := LimitFor(limits, reading), BucketFor(client, reading), arrivals[k].now;
            |RecentOf(cfg, IdealRun(limits, Events(arrivals)[..k], b).history, now)|
            == CountIn(AcceptedFrom(limits, start, arrivals[..k], client, reading), cfg.seconds, now)
  {
    var trace, cfg, b, now := Events(arrivals), LimitFor(limits, reading), BucketFor(client, reading), arrivals[k].now;
    BucketMeans(limits, arrivals[k], client, reading);
    assert trace[..k] == Events(arrivals[..k]);
    AcceptedFromBucket(limits, start, arrivals[..k], client, reading);
    MonotonePrefix(start, trace, k);
    MonotonePrefix(start, trace, k + 1);
    assert trace[..k + 1][..k] == trace[..k];
    HistoryIsAccepted(limits, start, trace[..k], b);
    RunRefines(limits, start, trace[..k], b);
    CountIsRecent(cfg, IdealRun(limits, trace[..k], b).history, now);
  }

  /**
   Every decision, from the earlier ones. With a positive limit for its kind, a request is refused as still
   blocked exactly when an earlier overflow of the same client and kind blocks it; otherwise it overflows
   exactly when that client had as many requests of that kind accepted in the window as its limit allows,
   and it is accepted exactly when there were fewer. The limit is the read limit for the verbs GET, HEAD and
   OPTIONS in whatever cases, and the write limit for all others.
   */
  lemma DecisionTells(limits: Limits, start: real, arrivals: seq<Arrival>, k: nat, client: string, reading: bool)
    requires k < |arrivals| && Monotone(start, Events(arrivals)) && IsFrom(arrivals[k], client, reading)
    requires LimitFor(limits, reading).requests >= 1
    ensures var cfg, d := LimitFor(limits, reading), Answer(limits, start, arrivals, k);
            var full := CountIn(AcceptedFrom(limits, start, arrivals[..k], client, reading), cfg.seconds, arrivals[k].now)
                        >= cfg.requests;
            var blocked := IsBlocked(limits, start, arrivals, k, client, reading);
            && (d.StillBlocked? <==> blocked)
            && (d.Overflow? <==> !blocked && full)
            && (d.Allowed? <==> !blocked && !full)
            && (d.Overflow? ==> d.retryAfter == cfg.blockDuration)
  {
    BucketMeans(limits, arrivals[k], client, reading);
    StillBlockedIff(limits, start, arrivals, k, client, reading);
    DecisionsMatchHistory(limits, start, Events(arrivals), k);
    HistoryCount(limits, start, arrivals, k, client, reading);
  }
}
