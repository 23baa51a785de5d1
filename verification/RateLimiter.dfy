/**
 The sliding-window rate limiter of app/core/rate_limiter.py, as the HTTP middleware uses it.

 A client bucket keeps a pruned list of accepted time stamps and a block end. The reference
 is `Ideal`, which keeps the whole accepted history for ever and never cleans up.
 */
module RateLimiter {
  import opened Prelude
  import opened Text

  datatype Config = Config(requests: int, seconds: int, blockDuration: int)

  /** The two configurations of a limiter: mutating requests and read-only requests. */
  datatype Limits = Limits(write: Config, read: Config)

  datatype Request = Request(clientId: string, verb: string)

  datatype ClientState = ClientState(requests: seq<real>, blockedUntil: real, total: nat, blockedCount: nat)

  datatype State = State(clients: map<string, ClientState>, lastCleanup: real)

  datatype Decision =
    | Allowed
    | Overflow(retryAfter: int)      // the window is full: the bucket is blocked now
    | StillBlocked(retryAfter: int)  // an earlier block is in force

  const CLEANUP_INTERVAL := 300.0

  const NEW_CLIENT := ClientState([], 0.0, 0, 0)

  // ----- Buckets -----

  predicate IsSafe(verb: string) {
    Upper(verb) in {"GET", "HEAD", "OPTIONS"}
  }

  function BucketOf(r: Request): string {
    r.clientId + ":" + (if IsSafe(r.verb) then "read" else "write")
  }

  function ConfigFor(limits: Limits, r: Request): Config {
    if IsSafe(r.verb) then limits.read else limits.write
  }

  /** The configuration that goes with a bucket name. */
  function ConfigOf(limits: Limits, bucket: string): Config {
    if |bucket| > 0 && bucket[|bucket| - 1] == 'd' then limits.read else limits.write
  }

  /** Requests that share a bucket come from one client and are always judged by one configuration. */
  lemma BucketDeterminesConfig(limits: Limits, r: Request, q: Request)
    ensures ConfigOf(limits, BucketOf(r)) == ConfigFor(limits, r)
    ensures BucketOf(r) == BucketOf(q) ==> r.clientId == q.clientId && ConfigFor(limits, r) == ConfigFor(limits, q)
  {
    var a, b := BucketOf(r), BucketOf(q);
    assert a[|a| - 1] == (if IsSafe(r.verb) then 'd' else 'e');
    assert b[|b| - 1] == (if IsSafe(q.verb) then 'd' else 'e');
    assert a[..|r.clientId|] == r.clientId && b[..|q.clientId|] == q.clientId;
  }

  // ----- One check -----

  function NewerThan(bound: real): real -> bool {
    (t: real) => t > bound
  }

  /** The time stamps that the window ending at `t` still sees. */
  function RecentOf(cfg: Config, times: seq<real>, t: real): seq<real> {
    Filter(NewerThan(t - cfg.seconds as real), times)
  }

  predicate Stale(st: ClientState, now: real) {
    st.blockedUntil < now && st.requests == []
  }

  function Cleanup(s: State, now: real): State {
    if now - s.lastCleanup < CLEANUP_INTERVAL then s
    else State(map b | b in s.clients && !Stale(s.clients[b], now) :: s.clients[b], now)
  }

  /** A clean-up comes at most every five minutes, and forgets exactly those without time stamps whose block is over. */
  lemma CleanupForgets(s: State, now: real)
    ensures forall b :: b in Cleanup(s, now).clients <==>
              b in s.clients
              && (now - s.lastCleanup < 300.0 || s.clients[b].requests != [] || s.clients[b].blockedUntil >= now)
    ensures forall b :: b in Cleanup(s, now).clients ==> Cleanup(s, now).clients[b] == s.clients[b]
    ensures Cleanup(s, now).lastCleanup == if now - s.lastCleanup < 300.0 then s.lastCleanup else now
  {
  }

  function ClientAt(s: State, bucket: string): ClientState {
    if bucket in s.clients then s.clients[bucket] else NEW_CLIENT
  }

  function Judge(cfg: Config, st: ClientState, now: real): (ClientState, Decision) {
    if st.blockedUntil > now then (st, StillBlocked((st.blockedUntil - now).Floor))
    else
      var recent := RecentOf(cfg, st.requests, now);
      if |recent| >= cfg.requests then
        (st.(requests := recent, blockedUntil := now + cfg.blockDuration as real, blockedCount := st.blockedCount + 1),
         Overflow(cfg.blockDuration))
      else
        (st.(requests := recent + [now], total := st.total + 1), Allowed)
  }

  /** `now` is read first, `cleanupNow` when the clean-up looks at the clock again. */
  datatype Event = Event(bucket: string, now: real, cleanupNow: real)

  function Check(limits: Limits, s: State, ev: Event): (State, Decision) {
    var s1 := Cleanup(s, ev.cleanupNow);
    var (st, d) := Judge(ConfigOf(limits, ev.bucket), ClientAt(s1, ev.bucket), ev.now);
    (s1.(clients := s1.clients[ev.bucket := st]), d)
  }

  function Run(limits: Limits, start: real, trace: seq<Event>): State {
    if trace == [] then State(map[], start)
    else Check(limits, Run(limits, start, trace[..|trace| - 1]), trace[|trace| - 1]).0
  }

  function DecisionAt(limits: Limits, start: real, trace: seq<Event>, i: nat): Decision
    requires i < |trace|
  {
    Check(limits, Run(limits, start, trace[..i]), trace[i]).1
  }

  /** The last clock reading of a trace. */
  function ClockAfter(start: real, trace: seq<Event>): real {
    if trace == [] then start else trace[|trace| - 1].cleanupNow
  }

  /** The clock never runs backwards and starts at zero or later. */
  ghost predicate Monotone(start: real, trace: seq<Event>) {
    if trace == [] then 0.0 <= start
    else
      var n := |trace| - 1;
      Monotone(start, trace[..n]) && ClockAfter(start, trace[..n]) <= trace[n].now <= trace[n].cleanupNow
  }

  // ----- The reference: a bucket that remembers everything -----

  datatype Ideal = Ideal(history: seq<real>, blockedUntil: real)

  function IdealJudge(cfg: Config, i: Ideal, now: real): (Ideal, Decision) {
    if i.blockedUntil > now then (i, StillBlocked((i.blockedUntil - now).Floor))
    else if |RecentOf(cfg, i.history, now)| >= cfg.requests then
      (i.(blockedUntil := now + cfg.blockDuration as real), Overflow(cfg.blockDuration))
    else
      (i.(history := i.history + [now]), Allowed)
  }

  function IdealRun(limits: Limits, trace: seq<Event>, bucket: string): Ideal {
    if trace == [] then Ideal([], 0.0)
    else
      var n := |trace| - 1;
      var i := IdealRun(limits, trace[..n], bucket);
      if trace[n].bucket == bucket then IdealJudge(ConfigOf(limits, bucket), i, trace[n].now).0 else i
  }

  /** From time `floor` on, the pruned client answers like the bucket that remembers everything. */
  ghost predicate Refines(cfg: Config, st: ClientState, i: Ideal, floor: real) {
    && (forall t :: floor <= t ==> RecentOf(cfg, st.requests, t) == RecentOf(cfg, i.history, t))
    && (st.blockedUntil == i.blockedUntil || (st.blockedUntil <= floor && i.blockedUntil <= floor))
    && (forall h :: h in i.history ==> h <= floor)
  }

  lemma RecentOfRecent(cfg: Config, times: seq<real>, now: real, t: real)
    requires now <= t
    ensures RecentOf(cfg, RecentOf(cfg, times, now), t) == RecentOf(cfg, times, t)
  {
    NewerIsStronger(now - cfg.seconds as real, t - cfg.seconds as real);
    FilterStronger(NewerThan(now - cfg.seconds as real), NewerThan(t - cfg.seconds as real), times);
  }

  lemma NewerIsStronger(a: real, b: real)
    requires a <= b
    ensures forall x: real :: NewerThan(b)(x) ==> NewerThan(a)(x)
  {
  }

  lemma RecentAppend(cfg: Config, times: seq<real>, x: real, t: real)
    ensures RecentOf(cfg, times + [x], t) == RecentOf(cfg, times, t) + RecentOf(cfg, [x], t)
  {
    FilterConcat(NewerThan(t - cfg.seconds as real), times, [x]);
  }

  /** Pruning, appending and blocking keep the refinement and give the reference's answer. */
  lemma JudgeRefines(cfg: Config, st: ClientState, i: Ideal, floor: real, now: real)
    requires floor <= now && Refines(cfg, st, i, floor)
    ensures Judge(cfg, st, now).1 == IdealJudge(cfg, i, now).1
    ensures Refines(cfg, Judge(cfg, st, now).0, IdealJudge(cfg, i, now).0, now)
  {
    var st' := Judge(cfg, st, now).0;
    var i' := IdealJudge(cfg, i, now).0;
    assert RecentOf(cfg, st.requests, now) == RecentOf(cfg, i.history, now);
    if st.blockedUntil <= now {
      var recent := RecentOf(cfg, st.requests, now);
      forall t | now <= t
        ensures RecentOf(cfg, st'.requests, t) == RecentOf(cfg, i'.history, t)
      {
        RecentOfRecent(cfg, st.requests, now, t);
        RecentAppend(cfg, recent, now, t);
        RecentAppend(cfg, i.history, now, t);
      }
    }
  }

  /** The clean-up of event `k` dropped the client while the event's own, earlier clock reading still finds it blocked. */
  ghost predicate BlockDropped(limits: Limits, start: real, trace: seq<Event>, k: nat)
    requires k < |trace|
  {
    var s, ev := Run(limits, start, trace[..k]), trace[k];
    && ClientAt(s, ev.bucket).blockedUntil > ev.now
    && ev.bucket !in Cleanup(s, ev.cleanupNow).clients
  }

  ghost predicate NoBlockDropped(limits: Limits, start: real, trace: seq<Event>, bucket: string) {
    forall k :: 0 <= k < |trace| && trace[k].bucket == bucket ==> !BlockDropped(limits, start, trace, k)
  }

  /** A clean-up keeps the refinement from time `at` on, unless it drops a block that reaches beyond. */
  lemma CleanupRefines(cfg: Config, s: State, bucket: string, i: Ideal, floor: real, at: real, now: real)
    requires 0.0 <= floor <= at <= now && Refines(cfg, ClientAt(s, bucket), i, floor)
    requires ClientAt(s, bucket).blockedUntil > at ==> bucket in Cleanup(s, now).clients
    ensures Refines(cfg, ClientAt(Cleanup(s, now), bucket), i, at)
  {
  }

  lemma NoDropsBefore(limits: Limits, start: real, trace: seq<Event>, bucket: string, n: nat)
    requires n <= |trace| && NoBlockDropped(limits, start, trace, bucket)
    ensures NoBlockDropped(limits, start, trace[..n], bucket)
  {
    forall k | 0 <= k < n && trace[..n][k].bucket == bucket ensures !BlockDropped(limits, start, trace[..n], k) {
      assert trace[..n][..k] == trace[..k];
      assert !BlockDropped(limits, start, trace, k);
    }
  }

  /** After any calls on any buckets, a bucket whose block was never dropped still answers like its full history. */
  lemma {:induction false} RunRefines(limits: Limits, start: real, trace: seq<Event>, bucket: string)
    requires Monotone(start, trace) && NoBlockDropped(limits, start, trace, bucket)
    ensures 0.0 <= ClockAfter(start, trace)
    ensures Refines(ConfigOf(limits, bucket), ClientAt(Run(limits, start, trace), bucket),
                    IdealRun(limits, trace, bucket), ClockAfter(start, trace))
  {
    if trace != [] {
      var n := |trace| - 1;
      var before, ev := trace[..n], trace[n];
      var cfg, s, i := ConfigOf(limits, bucket), Run(limits, start, before), IdealRun(limits, before, bucket);
      NoDropsBefore(limits, start, trace, bucket, n);
      RunRefines(limits, start, before, bucket);
      if ev.bucket == bucket {
        assert !BlockDropped(limits, start, trace, n);
        CleanupRefines(cfg, s, bucket, i, ClockAfter(start, before), ev.now, ev.cleanupNow);
        JudgeRefines(cfg, ClientAt(Cleanup(s, ev.cleanupNow), bucket), i, ev.now, ev.now);
      } else {
        CleanupRefines(cfg, s, bucket, i, ClockAfter(start, before), ev.cleanupNow, ev.cleanupNow);
      }
    }
  }

  /** With a positive limit, a client that is blocked has time stamps. */
  lemma {:induction false} BlockedHasRequests(limits: Limits, start: real, trace: seq<Event>, bucket: string)
    requires Monotone(start, trace) && ConfigOf(limits, bucket).requests >= 1
    ensures 0.0 <= ClockAfter(start, trace)
    ensures var st := ClientAt(Run(limits, start, trace), bucket);
            st.requests == [] ==> st.blockedUntil <= ClockAfter(start, trace)
  {
    if trace != [] {
      BlockedHasRequests(limits, start, trace[..|trace| - 1], bucket);
    }
  }

  /** So no clean-up ever drops a block, if the limit is positive. */
  lemma PositiveLimitDropsNoBlock(limits: Limits, start: real, trace: seq<Event>, bucket: string)
    requires Monotone(start, trace) && ConfigOf(limits, bucket).requests >= 1
    ensures NoBlockDropped(limits, start, trace, bucket)
  {
    forall k | 0 <= k < |trace| && trace[k].bucket == bucket ensures !BlockDropped(limits, start, trace, k) {
      MonotonePrefix(start, trace, k + 1);
      assert trace[..k + 1][..k] == trace[..k];
      BlockedHasRequests(limits, start, trace[..k], bucket);
    }
  }

  /** What the full accepted history of the bucket would decide. */
  function IdealDecision(limits: Limits, trace: seq<Event>, k: nat): Decision
    requires k < |trace|
  {
    IdealJudge(ConfigOf(limits, trace[k].bucket), IdealRun(limits, trace[..k], trace[k].bucket), trace[k].now).1
  }

  /**
   Refinement. Each decision is the one that the full accepted history of that bucket would give,
   however the lists were pruned and the client table cleaned in between.
   */
  lemma DecisionsMatchHistory(limits: Limits, start: real, trace: seq<Event>, k: nat)
    requires k < |trace| && Monotone(start, trace)
    requires ConfigOf(limits, trace[k].bucket).requests >= 1 || NoBlockDropped(limits, start, trace, trace[k].bucket)
    ensures DecisionAt(limits, start, trace, k) == IdealDecision(limits, trace, k)
  {
    var b, before, ev := trace[k].bucket, trace[..k], trace[k];
    if ConfigOf(limits, b).requests >= 1 {
      PositiveLimitDropsNoBlock(limits, start, trace, b);
    }
    MonotonePrefix(start, trace, k + 1);
    assert trace[..k + 1][..k] == before;
    NoDropsBefore(limits, start, trace, b, k);
    RunRefines(limits, start, before, b);
    var s, i := Run(limits, start, before), IdealRun(limits, before, b);
    assert !BlockDropped(limits, start, trace, k);
    CleanupRefines(ConfigOf(limits, b), s, b, i, ClockAfter(start, before), ev.now, ev.cleanupNow);
    JudgeRefines(ConfigOf(limits, b), ClientAt(Cleanup(s, ev.cleanupNow), b), i, ev.now, ev.now);
  }

  ghost predicate AllMatch(limits: Limits, start: real, trace: seq<Event>, bucket: string) {
    forall k :: 0 <= k < |trace| && trace[k].bucket == bucket ==>
      DecisionAt(limits, start, trace, k) == IdealDecision(limits, trace, k)
  }

  /**
   For every limit, also zero and negative ones: all decisions on a bucket match its full history
   exactly when no clean-up drops the bucket's block between the two clock readings of one call.
   */
  lemma DecisionsMatchIff(limits: Limits, start: real, trace: seq<Event>, bucket: string)
    requires Monotone(start, trace)
    ensures AllMatch(limits, start, trace, bucket) <==> NoBlockDropped(limits, start, trace, bucket)
  {
    if NoBlockDropped(limits, start, trace, bucket) {
      forall k | 0 <= k < |trace| && trace[k].bucket == bucket
        ensures DecisionAt(limits, start, trace, k) == IdealDecision(limits, trace, k)
      {
        DecisionsMatchHistory(limits, start, trace, k);
      }
    } else {
      var k :| 0 <= k < |trace| && trace[k].bucket == bucket && BlockDropped(limits, start, trace, k);
      var first := FirstDrop(limits, start, trace, bucket, k);
      DropIsAMismatch(limits, start, trace, first);
    }
  }

  lemma {:induction false} FirstDrop(limits: Limits, start: real, trace: seq<Event>, bucket: string, k: nat) returns (first: nat)
    requires k < |trace| && trace[k].bucket == bucket && BlockDropped(limits, start, trace, k)
    ensures first <= k && trace[first].bucket == bucket && BlockDropped(limits, start, trace, first)
    ensures NoBlockDropped(limits, start, trace[..first], bucket)
  {
    if NoBlockDropped(limits, start, trace[..k], bucket) {
      first := k;
    } else {
      var j :| 0 <= j < k && trace[..k][j].bucket == bucket && BlockDropped(limits, start, trace[..k], j);
      assert trace[..k][..j] == trace[..j];
      first := FirstDrop(limits, start, trace, bucket, j);
    }
  }

  /** The history says that the block is still in force; the limiter has forgotten it. */
  lemma DropIsAMismatch(limits: Limits, start: real, trace: seq<Event>, k: nat)
    requires k < |trace| && Monotone(start, trace) && BlockDropped(limits, start, trace, k)
    requires NoBlockDropped(limits, start, trace[..k], trace[k].bucket)
    ensures IdealDecision(limits, trace, k).StillBlocked? && !DecisionAt(limits, start, trace, k).StillBlocked?
  {
    MonotonePrefix(start, trace, k + 1);
    assert trace[..k + 1][..k] == trace[..k];
    RunRefines(limits, start, trace[..k], trace[k].bucket);
  }

  /** It does happen, with a limit of zero: the second call finds its client blocked until one half, and the clean-up drops it. */
  lemma ZeroLimitCanDropABlock(bucket: string, limits: Limits)
    requires ConfigOf(limits, bucket) == Config(0, 1, 1)
    ensures var trace := [Event(bucket, 299.0, 299.0), Event(bucket, 299.5, 301.0)];
            && Monotone(0.0, trace) && BlockDropped(limits, 0.0, trace, 1)
            && DecisionAt(limits, 0.0, trace, 1) == Overflow(1) && IdealDecision(limits, trace, 1) == StillBlocked(0)
  {
    var a, b := Event(bucket, 299.0, 299.0), Event(bucket, 299.5, 301.0);
    assert [a, b][..1] == [a] && [a][..0] == [];
    assert Monotone(0.0, [a]);
    assert RecentOf(ConfigOf(limits, bucket), [], 299.0) == [];
    assert Judge(Config(0, 1, 1), NEW_CLIENT, 299.0) == (ClientState([], 300.0, 0, 1), Overflow(1));
    var s := Run(limits, 0.0, [a]);
    assert Run(limits, 0.0, []) == State(map[], 0.0) && Cleanup(State(map[], 0.0), 299.0) == State(map[], 0.0);
    assert s == Check(limits, State(map[], 0.0), a).0;
    assert s == State(map[bucket := ClientState([], 300.0, 0, 1)], 0.0);
    assert IdealRun(limits, [a], bucket) == Ideal([], 300.0);
  }

  lemma {:induction false} MonotonePrefix(start: real, trace: seq<Event>, k: nat)
    requires k <= |trace| && Monotone(start, trace)
    ensures Monotone(start, trace[..k])
    decreases |trace|
  {
    if k < |trace| {
      var n := |trace| - 1;
      MonotonePrefix(start, trace[..n], k);
      assert trace[..n][..k] == trace[..k];
    } else {
      assert trace[..k] == trace;
    }
  }

  // ----- The window bound -----

  /** The accepted time stamps of a bucket, in order. */
  function Accepted(limits: Limits, start: real, trace: seq<Event>, bucket: string): seq<real> {
    if trace == [] then []
    else
      var n := |trace| - 1;
      Accepted(limits, start, trace[..n], bucket)
      + (if trace[n].bucket == bucket && DecisionAt(limits, start, trace, n).Allowed? then [trace[n].now] else [])
  }

  function InWindow(cfg: Config, t: real): real -> bool {
    (h: real) => t - cfg.seconds as real < h <= t
  }

  lemma {:induction false} FilterWeaker<T>(strong: T -> bool, weak: T -> bool, s: seq<T>)
    requires forall x :: x in s && strong(x) ==> weak(x)
    ensures |Filter(strong, s)| <= |Filter(weak, s)|
  {
    if s != [] {
      FilterWeaker(strong, weak, s[1..]);
    }
  }

  function WindowOf(cfg: Config, history: seq<real>, t: real): seq<real> {
    Filter(InWindow(cfg, t), history)
  }

  ghost predicate Bounded(cfg: Config, history: seq<real>) {
    forall t :: |WindowOf(cfg, history, t)| <= cfg.requests
  }

  lemma AcceptKeepsBounded(cfg: Config, history: seq<real>, now: real)
    requires Bounded(cfg, history) && forall h :: h in history ==> h <= now
    requires |RecentOf(cfg, history, now)| < cfg.requests
    ensures Bounded(cfg, history + [now])
  {
    forall t
      ensures |WindowOf(cfg, history + [now], t)| <= cfg.requests
    {
      WindowAfterAccept(cfg, history, now, t);
    }
  }

  /** A window that sees the new time stamp sees no old one outside the window that was just judged. */
  lemma WindowAfterAccept(cfg: Config, history: seq<real>, now: real, t: real)
    requires |WindowOf(cfg, history, t)| <= cfg.requests && |RecentOf(cfg, history, now)| < cfg.requests
    requires forall h :: h in history ==> h <= now
    ensures |WindowOf(cfg, history + [now], t)| <= cfg.requests
  {
    FilterConcat(InWindow(cfg, t), history, [now]);
    FilterOne(InWindow(cfg, t), now);
    if now <= t {
      WindowWithinRecent(cfg, history, now, t);
    }
  }

  lemma WindowWithinRecent(cfg: Config, history: seq<real>, now: real, t: real)
    requires now <= t && forall h :: h in history ==> h <= now
    ensures |WindowOf(cfg, history, t)| <= |RecentOf(cfg, history, now)|
  {
    FilterWeaker(InWindow(cfg, t), NewerThan(now - cfg.seconds as real), history);
  }

  /** The reference's history is exactly what the limiter accepted, and it is bounded in every window. */
  lemma {:induction false} HistoryIsAccepted(limits: Limits, start: real, trace: seq<Event>, bucket: string)
    requires Monotone(start, trace) && ConfigOf(limits, bucket).requests >= 1
    ensures NoBlockDropped(limits, start, trace, bucket)
    ensures IdealRun(limits, trace, bucket).history == Accepted(limits, start, trace, bucket)
    ensures Bounded(ConfigOf(limits, bucket), Accepted(limits, start, trace, bucket))
  {
    PositiveLimitDropsNoBlock(limits, start, trace, bucket);
    if trace != [] {
      var n := |trace| - 1;
      var before, ev := trace[..n], trace[n];
      HistoryIsAccepted(limits, start, before, bucket);
      if ev.bucket == bucket {
        DecisionsMatchHistory(limits, start, trace, n);
        RunRefines(limits, start, before, bucket);
        if DecisionAt(limits, start, trace, n).Allowed? {
          AcceptKeepsBounded(ConfigOf(limits, bucket), Accepted(limits, start, before, bucket), ev.now);
        }
      }
    }
  }

  /** A limit of zero or less accepts nothing. */
  lemma {:induction false} ClosedBucketAcceptsNothing(limits: Limits, start: real, trace: seq<Event>, bucket: string)
    requires ConfigOf(limits, bucket).requests <= 0
    ensures Accepted(limits, start, trace, bucket) == []
  {
    if trace != [] {
      ClosedBucketAcceptsNothing(limits, start, trace[..|trace| - 1], bucket);
    }
  }

  /**
   The sliding-window bound. Over a whole run, the requests of one bucket accepted in any window
   (t - seconds, t] number at most `requests` (none at all when that is negative).
   */
  lemma WindowBound(limits: Limits, start: real, trace: seq<Event>, bucket: string, t: real)
    requires Monotone(start, trace)
    ensures var cfg := ConfigOf(limits, bucket);
            |WindowOf(cfg, Accepted(limits, start, trace, bucket), t)| <= if cfg.requests < 0 then 0 else cfg.requests
  {
    if ConfigOf(limits, bucket).requests >= 1 {
      HistoryIsAccepted(limits, start, trace, bucket);
    } else {
      ClosedBucketAcceptsNothing(limits, start, trace, bucket);
    }
  }

  // ----- Block and recovery -----

  /** No request of the bucket between events `i` and `j` comes at `until` or later. */
  ghost predicate AllBefore(trace: seq<Event>, i: nat, j: nat, bucket: string, until: real) {
    forall k :: i < k < j < |trace| && trace[k].bucket == bucket ==> trace[k].now < until
  }

  lemma {:induction false} IdealStaysPut(limits: Limits, trace: seq<Event>, i: nat, j: nat, bucket: string)
    requires i < j < |trace|
    requires AllBefore(trace, i, j, bucket, IdealRun(limits, trace[..i + 1], bucket).blockedUntil)
    ensures IdealRun(limits, trace[..j], bucket) == IdealRun(limits, trace[..i + 1], bucket)
    decreases j
  {
    if j > i + 1 {
      IdealStaysPut(limits, trace, i, j - 1, bucket);
      assert trace[..j][..j - 1] == trace[..j - 1];
    }
  }

  /** An overflow blocks the client and stores only what the window still sees. */
  lemma OverflowBlocks(limits: Limits, start: real, trace: seq<Event>, i: nat)
    requires i < |trace| && DecisionAt(limits, start, trace, i).Overflow?
    ensures var ev, st := trace[i], ClientAt(Run(limits, start, trace[..i + 1]), trace[i].bucket);
            && st.blockedUntil == ev.now + ConfigOf(limits, ev.bucket).blockDuration as real
            && ev.bucket in Run(limits, start, trace[..i + 1]).clients
  {
    assert trace[..i + 1][..i] == trace[..i];
  }

  /**
   While the block lasts, nothing touches the client: however many requests of the bucket are refused
   and whatever other buckets do, neither its time stamps nor the end of its block nor its counters change.
   */
  lemma {:induction false} BlockedStaysPut(limits: Limits, start: real, trace: seq<Event>, i: nat, j: nat)
    requires i < j <= |trace| && Monotone(start, trace) && DecisionAt(limits, start, trace, i).Overflow?
    requires j == i + 1
             || ClockAfter(start, trace[..j]) < trace[i].now + ConfigOf(limits, trace[i].bucket).blockDuration as real
    ensures var b := trace[i].bucket;
            && b in Run(limits, start, trace[..j]).clients
            && ClientAt(Run(limits, start, trace[..j]), b) == ClientAt(Run(limits, start, trace[..i + 1]), b)
    decreases j
  {
    OverflowBlocks(limits, start, trace, i);
    if j > i + 1 {
      assert trace[..j][..j - 1] == trace[..j - 1];
      MonotonePrefix(start, trace, j);
      BlockedStaysPut(limits, start, trace, i, j - 1);
    }
  }

  lemma OverflowState(limits: Limits, start: real, trace: seq<Event>, i: nat)
    requires i < |trace| && Monotone(start, trace)
    requires NoBlockDropped(limits, start, trace, trace[i].bucket)
    requires DecisionAt(limits, start, trace, i).Overflow?
    ensures var b := trace[i].bucket;
            var ideal := IdealRun(limits, trace[..i + 1], b);
            && ideal.blockedUntil == trace[i].now + ConfigOf(limits, b).blockDuration as real
            && forall h :: h in ideal.history ==> h <= trace[i].now
  {
    var b := trace[i].bucket;
    MonotonePrefix(start, trace, i + 1);
    assert trace[..i + 1][..i] == trace[..i];
    DecisionsMatchHistory(limits, start, trace, i);
    NoDropsBefore(limits, start, trace, b, i);
    RunRefines(limits, start, trace[..i], b);
  }

  lemma {:induction false} ClockOrder(start: real, trace: seq<Event>, i: nat, j: nat)
    requires i < j < |trace| && Monotone(start, trace)
    ensures trace[i].now <= trace[j].now
    decreases |trace|
  {
    var n := |trace| - 1;
    if j < n {
      ClockOrder(start, trace[..n], i, j);
    } else if i < n - 1 {
      ClockOrder(start, trace[..n], i, n - 1);
    }
  }

  /** After an overflow at time t, every request of the bucket before t + block_duration is refused, with the time left. */
  lemma BlockHolds(limits: Limits, start: real, trace: seq<Event>, i: nat, j: nat)
    requires i < j < |trace| && trace[i].bucket == trace[j].bucket && Monotone(start, trace)
    requires var cfg := ConfigOf(limits, trace[i].bucket);
             && (cfg.requests >= 1 || NoBlockDropped(limits, start, trace, trace[i].bucket))
             && DecisionAt(limits, start, trace, i).Overflow?
             && trace[j].now < trace[i].now + cfg.blockDuration as real
    ensures DecisionAt(limits, start, trace, j)
            == StillBlocked((trace[i].now + ConfigOf(limits, trace[i].bucket).blockDuration as real - trace[j].now).Floor)
  {
    var b := trace[i].bucket;
    if ConfigOf(limits, b).requests >= 1 {
      PositiveLimitDropsNoBlock(limits, start, trace, b);
    }
    OverflowState(limits, start, trace, i);
    forall k | i < k < j ensures trace[k].now <= trace[j].now { ClockOrder(start, trace, k, j); }
    IdealStaysPut(limits, trace, i, j, b);
    DecisionsMatchHistory(limits, start, trace, j);
  }

  /** Whatever the limit and whatever is dropped, no request before the end of the block is accepted. */
  lemma NoneAcceptedWhileBlocked(limits: Limits, start: real, trace: seq<Event>, i: nat, j: nat)
    requires i < j < |trace| && trace[i].bucket == trace[j].bucket && Monotone(start, trace)
    requires DecisionAt(limits, start, trace, i).Overflow?
    requires trace[j].now < trace[i].now + ConfigOf(limits, trace[i].bucket).blockDuration as real
    ensures !DecisionAt(limits, start, trace, j).Allowed?
  {
    if ConfigOf(limits, trace[i].bucket).requests >= 1 {
      BlockHolds(limits, start, trace, i, j);
    }
  }

  /** If a block lasts at least one window, the first request at or after its end is accepted. */
  lemma RecoversAfterBlock(limits: Limits, start: real, trace: seq<Event>, i: nat, j: nat)
    requires i < j < |trace| && trace[i].bucket == trace[j].bucket && Monotone(start, trace)
    requires var cfg := ConfigOf(limits, trace[i].bucket);
             var until := trace[i].now + cfg.blockDuration as real;
             && cfg.requests >= 1 && cfg.blockDuration >= cfg.seconds
             && DecisionAt(limits, start, trace, i).Overflow?
             && AllBefore(trace, i, j, trace[i].bucket, until) && until <= trace[j].now
    ensures DecisionAt(limits, start, trace, j).Allowed?
  {
    var b := trace[i].bucket;
    var cfg := ConfigOf(limits, b);
    PositiveLimitDropsNoBlock(limits, start, trace, b);
    OverflowState(limits, start, trace, i);
    IdealStaysPut(limits, trace, i, j, b);
    DecisionsMatchHistory(limits, start, trace, j);
    assert RecentOf(cfg, IdealRun(limits, trace[..j], b).history, trace[j].now) == [] by {
      FilterNone(NewerThan(trace[j].now - cfg.seconds as real), IdealRun(limits, trace[..j], b).history);
    }
  }

  // ----- The object -----

  class Limiter {
    const limits: Limits
    var clients: map<string, ClientState>
    var lastCleanup: real

    function View(): State
      reads this
    {
      State(clients, lastCleanup)
    }

    /** A read limit that is absent or zero falls back to the default one. */
    constructor (requests: int, seconds: int, blockDuration: int,
                 readRequests: Option<int>, readSeconds: Option<int>, readBlockDuration: Option<int>, start: real)
      ensures View() == State(map[], start)
      ensures limits.write == Config(requests, seconds, blockDuration)
      ensures limits.read.requests == if readRequests in {None, Some(0)} then requests else readRequests.value
      ensures limits.read.seconds == if readSeconds in {None, Some(0)} then seconds else readSeconds.value
      ensures limits.read.blockDuration == if readBlockDuration in {None, Some(0)} then blockDuration else readBlockDuration.value
    {
      limits := Limits(Config(requests, seconds, blockDuration),
                       Config(OrElse(readRequests, requests), OrElse(readSeconds, seconds),
                              OrElse(readBlockDuration, blockDuration)));
      clients, lastCleanup := map[], start;
    }

    method CleanupIfNeeded(now: real)
      modifies this
      ensures View() == Cleanup(old(View()), now)
    {
      if now - lastCleanup < CLEANUP_INTERVAL {
        return;
      }
      lastCleanup := now;
      var expired := set b | b in clients && Stale(clients[b], now);
      while expired != {}
        invariant lastCleanup == now && expired <= clients.Keys
        invariant clients == map b | b in old(clients) && (b in expired || !Stale(old(clients)[b], now)) :: old(clients)[b]
        invariant forall b :: b in expired ==> Stale(old(clients)[b], now)
        decreases |expired|
      {
        var b :| b in expired;
        clients := clients - {b};
        expired := expired - {b};
      }
    }

    method CheckRateLimit(r: Request, now: real, cleanupNow: real) returns (d: Decision)
      modifies this
      ensures (View(), d) == Check(limits, old(View()), Event(BucketOf(r), now, cleanupNow))
    {
      BucketDeterminesConfig(limits, r, r);
      var cfg := ConfigFor(limits, r);
      var bucket := BucketOf(r);
      CleanupIfNeeded(cleanupNow);
      ghost var cleaned := clients;
      if bucket !in clients {
        clients := clients[bucket := NEW_CLIENT];
      }
      var state := clients[bucket];
      if state.blockedUntil > now {
        assert clients == cleaned[bucket := state];
        return StillBlocked((state.blockedUntil - now).Floor);
      }
      state := state.(requests := RecentOf(cfg, state.requests, now));
      if |state.requests| >= cfg.requests {
        state := state.(blockedUntil := now + cfg.blockDuration as real);
        state := state.(blockedCount := state.blockedCount + 1);
        assert clients[bucket := state] == cleaned[bucket := state];
        clients := clients[bucket := state];
        return Overflow(cfg.blockDuration);
      }
      state := state.(requests := state.requests + [now]);
      state := state.(total := state.total + 1);
      assert clients[bucket := state] == cleaned[bucket := state];
      clients := clients[bucket := state];
      return Allowed;
    }
  }

  function OrElse(o: Option<int>, default: int): int {
    if o.Some? && o.value != 0 then o.value else default
  }
}
