/**
 * The mock provider's fixed-window enforcer, and the refinement theorems that clients limited by this repository's
 * own quota counter or pacer are never refused by it.
 */
module MockProvider {
  import opened Common
  import Q = Quotas
  import R = RateLimiters

  datatype Spec = Spec(limit: int, windowMs: int)

  datatype Window = Window(count: nat, resetAt: int)

  type Windows = map<string, Window>

  datatype Verdict = Verdict(allowed: bool, limit: int, remaining: int, resetAt: int, resetInSeconds: int)

  const SWEEP_AFTER_MS := 60_000

  // ---- Transitions -------------------------------------------------------------------------------------------

  /** The window a request at `now` falls into, before it is counted. */
  function Current(ws: Windows, key: string, spec: Spec, now: int): Window {
    if key in ws && now < ws[key].resetAt then ws[key] else Window(0, now + spec.windowMs)
  }

  function Counted(ws: Windows, key: string, spec: Spec, now: int): Windows {
    var w := Current(ws, key, spec, now);
    ws[key := w.(count := w.count + 1)]
  }

  function Judge(ws: Windows, key: string, spec: Spec, now: int): Verdict {
    var w := Current(ws, key, spec, now);
    Verdict(w.count + 1 <= spec.limit, spec.limit, Max(0, spec.limit - (w.count + 1)), w.resetAt,
            Max(1, (w.resetAt - now + 999) / 1000))
  }

  predicate Stale(w: Window, now: int) {
    now - w.resetAt > SWEEP_AFTER_MS
  }

  function Swept(ws: Windows, now: int): Windows {
    map k | k in ws && !Stale(ws[k], now) :: ws[k]
  }

  // ---- Traffic -----------------------------------------------------------------------------------------------

  /** What reaches the provider: requests under some bucket key, and the periodic cleaning. */
  datatype Traffic = Request(key: string, spec: Spec, now: int) | Clean(now: int)

  /** What is left of the table. */
  function Stepped(ws: Windows, step: Traffic): Windows {
    match step
    case Request(key, spec, now) => Counted(ws, key, spec, now)
    case Clean(now) => Swept(ws, now)
  }

  function After(traffic: seq<Traffic>): Windows {
    if traffic == [] then map[]
    else
      Stepped(After(traffic[..|traffic| - 1]), traffic[|traffic| - 1])
  }

  /** The answers given to the requests, in order. */
  function Verdicts(traffic: seq<Traffic>): seq<Verdict> {
    if traffic == [] then []
    else
      var before, last := traffic[..|traffic| - 1], traffic[|traffic| - 1];
      if last.Request? then Verdicts(before) + [Judge(After(before), last.key, last.spec, last.now)]
      else Verdicts(before)
  }

  /** When the requests under `key` arrive. */
  function Arrivals(traffic: seq<Traffic>, key: string): seq<int> {
    if traffic == [] then []
    else
      var before, last := Arrivals(traffic[..|traffic| - 1], key), traffic[|traffic| - 1];
      if last.Request? && last.key == key then before + [last.now] else before
  }

  ghost predicate Chronological(traffic: seq<Traffic>) {
    forall i, j :: 0 <= i <= j < |traffic| ==> traffic[i].now <= traffic[j].now
  }

  /** Every request under `key` carries the same limit and window. */
  ghost predicate Uniform(traffic: seq<Traffic>, key: string, spec: Spec) {
    forall i :: 0 <= i < |traffic| && traffic[i].Request? && traffic[i].key == key ==> traffic[i].spec == spec
  }

  /** No request under `key` was refused. */
  ghost predicate NeverRefused(traffic: seq<Traffic>, key: string) {
    forall n :: 0 <= n < |traffic| && traffic[n].Request? && traffic[n].key == key ==>
      Judge(After(traffic[..n]), key, traffic[n].spec, traffic[n].now).allowed
  }

  // ---- A stream that respects every sliding window passes ----------------------------------------------------

  /**
   * A counter holds exactly the arrivals inside its window, which one of them opened in the past and none of them has
   * outlived.
   */
  ghost predicate Counts(w: Window, arrivals: seq<int>, windowMs: int, now: int) {
    var start := w.resetAt - windowMs;
    && w.count == InWindow(arrivals, start, windowMs)
    && start in arrivals && start <= now && AtMost(arrivals, w.resetAt - 1)
  }

  lemma CountsOneMore(ws: Windows, key: string, spec: Spec, now: int, arrivals: seq<int>)
    requires spec.windowMs >= 1 && (key in ws ==> Counts(ws[key], arrivals, spec.windowMs, now))
    requires key !in ws ==> AtMost(arrivals, now - 1)
    ensures Counts(Counted(ws, key, spec, now)[key], arrivals + [now], spec.windowMs, now)
  {
    var lo := Current(ws, key, spec, now).resetAt - spec.windowMs;
    CountInOne(arrivals, now, lo, lo + spec.windowMs);
    if key !in ws || now >= ws[key].resetAt { CountInNone(arrivals, now, now + spec.windowMs); }
    assert (arrivals + [now])[|arrivals|] == now;
    assert lo in arrivals ==> lo in arrivals + [now];
  }

  ghost predicate Exact(ws: Windows, key: string, arrivals: seq<int>, windowMs: int, now: int) {
    if key in ws then Counts(ws[key], arrivals, windowMs, now) else AtMost(arrivals, now - 1)
  }

  lemma ExactStep(ws: Windows, key: string, spec: Spec, arrivals: seq<int>, before: int, step: Traffic)
    requires spec.windowMs >= 1 && Exact(ws, key, arrivals, spec.windowMs, before) && before <= step.now
    requires step.Request? && step.key == key ==> step.spec == spec
    ensures Exact(Stepped(ws, step), key, if step.Request? && step.key == key then arrivals + [step.now] else arrivals,
                  spec.windowMs, step.now)
  {
    if step.Request? && step.key == key { CountsOneMore(ws, key, spec, step.now, arrivals); }
  }

  /** The counter of a live window is the requests that arrived in it, and a key without one has seen none lately. */
  lemma {:induction false} WindowCountsArrivals(traffic: seq<Traffic>, key: string, spec: Spec)
    requires Chronological(traffic) && Uniform(traffic, key, spec) && spec.windowMs >= 1
    ensures if traffic == [] then After(traffic) == map[]
            else Exact(After(traffic), key, Arrivals(traffic, key), spec.windowMs, traffic[|traffic| - 1].now)
  {
    if traffic != [] {
      var before, last := traffic[..|traffic| - 1], traffic[|traffic| - 1];
      WindowCountsArrivals(before, key, spec);
      if before != [] {
        assert before[|before| - 1].now <= last.now;
        ExactStep(After(before), key, spec, Arrivals(before, key), before[|before| - 1].now, last);
      } else {
        ExactStep(map[], key, spec, [], last.now, last);
      }
    }
  }

  lemma {:induction false} ArrivalsOfPrefix(traffic: seq<Traffic>, key: string, n: nat, lo: int, hi: int)
    requires n <= |traffic|
    ensures CountIn(Arrivals(traffic[..n], key), lo, hi) <= CountIn(Arrivals(traffic, key), lo, hi)
  {
    if n < |traffic| {
      var before := traffic[..|traffic| - 1];
      ArrivalsOfPrefix(before, key, n, lo, hi);
      assert before[..n] == traffic[..n];
      var last := traffic[|traffic| - 1];
      if last.Request? && last.key == key { CountInOne(Arrivals(before, key), last.now, lo, hi); }
    } else {
      assert traffic[..n] == traffic;
    }
  }

  /** No window of length `windowMs`, wherever it starts, holds more than `limit` of the timestamps. */
  ghost predicate WithinLimit(times: seq<int>, windowMs: int, limit: int) {
    forall start :: InWindow(times, start, windowMs) <= limit
  }

  lemma RequestIsAllowed(traffic: seq<Traffic>, key: string, spec: Spec, n: nat)
    requires Chronological(traffic) && Uniform(traffic, key, spec) && spec.windowMs >= 1
    requires WithinLimit(Arrivals(traffic, key), spec.windowMs, spec.limit)
    requires n < |traffic| && traffic[n].Request? && traffic[n].key == key
    ensures Judge(After(traffic[..n]), key, spec, traffic[n].now).allowed
  {
    var upTo := traffic[..n + 1];
    PrefixIsLawful(traffic, key, spec, n + 1);
    WindowCountsArrivals(upTo, key, spec);
    AfterOneMore(traffic, n);
    var w := After(upTo)[key];
    var lo := w.resetAt - spec.windowMs;
    ArrivalsOfPrefix(traffic, key, n + 1, lo, lo + spec.windowMs);
    assert InWindow(Arrivals(traffic, key), lo, spec.windowMs) <= spec.limit;
    assert w.count == Current(After(traffic[..n]), key, spec, traffic[n].now).count + 1;
  }

  lemma PrefixIsLawful(traffic: seq<Traffic>, key: string, spec: Spec, n: nat)
    requires Chronological(traffic) && Uniform(traffic, key, spec) && n <= |traffic|
    ensures Chronological(traffic[..n]) && Uniform(traffic[..n], key, spec)
  {
  }

  lemma AfterOneMore(traffic: seq<Traffic>, n: nat)
    requires n < |traffic| && traffic[n].Request?
    ensures After(traffic[..n + 1]) == Counted(After(traffic[..n]), traffic[n].key, traffic[n].spec, traffic[n].now)
  {
    var upTo := traffic[..n + 1];
    assert upTo[..n] == traffic[..n] && upTo[n] == traffic[n];
  }

  /** If no sliding window of the arrivals exceeds the limit, the fixed-window enforcer refuses none of them. */
  lemma SlidingImpliesFixed(traffic: seq<Traffic>, key: string, spec: Spec)
    requires Chronological(traffic) && Uniform(traffic, key, spec) && spec.windowMs >= 1
    requires WithinLimit(Arrivals(traffic, key), spec.windowMs, spec.limit)
    ensures NeverRefused(traffic, key)
  {
    forall n | 0 <= n < |traffic| && traffic[n].Request? && traffic[n].key == key
      ensures Judge(After(traffic[..n]), key, traffic[n].spec, traffic[n].now).allowed
    {
      RequestIsAllowed(traffic, key, spec, n);
    }
  }

  /**
   * What the provider tells a request, in terms of the requests alone: its window is one some request opened, it is
   * allowed iff no more than the limit have arrived in that window so far, the rest of the limit remains, and the
   * seconds to the reset are the least whole number, at least one, that covers them.
   */
  lemma VerdictIsExact(traffic: seq<Traffic>, key: string, spec: Spec, n: nat)
    requires Chronological(traffic) && Uniform(traffic, key, spec) && spec.windowMs >= 1
    requires n < |traffic| && traffic[n].Request? && traffic[n].key == key
    ensures var v, now := Judge(After(traffic[..n]), key, spec, traffic[n].now), traffic[n].now;
            var start, arrivals := v.resetAt - spec.windowMs, Arrivals(traffic[..n + 1], key);
            var used := InWindow(arrivals, start, spec.windowMs);
            && start in arrivals && start <= now < v.resetAt
            && (v.allowed <==> used <= spec.limit) && v.limit == spec.limit && v.remaining == Max(0, spec.limit - used)
            && v.resetInSeconds >= 1 && v.resetInSeconds * 1000 >= v.resetAt - now
            && (v.resetInSeconds > 1 ==> (v.resetInSeconds - 1) * 1000 < v.resetAt - now)
  {
    var upTo := traffic[..n + 1];
    PrefixIsLawful(traffic, key, spec, n + 1);
    WindowCountsArrivals(upTo, key, spec);
    AfterOneMore(traffic, n);
  }

  // ---- Refinement --------------------------------------------------------------------------------------------

  /** Whatever the quota counter with the provider's own limit and window accepts, the provider accepts. */
  lemma QuotaIsNeverRefused(q: Q.Quota, ops: seq<Q.Op>, traffic: seq<Traffic>, key: string)
    requires Q.Fresh(q) && Q.Chronological(ops) && Q.NeverRetuned(ops)
    requires Q.Costly(ops)
    requires Chronological(traffic) && Uniform(traffic, key, Spec(q.policy.limit, q.policy.windowMs))
    requires Arrivals(traffic, key) == Q.AcceptedAt(q, ops)
    ensures NeverRefused(traffic, key)
  {
    DelayedQuotaIsNeverRefused(q, ops, traffic, key, q.policy.windowMs, 0);
  }

  /** Each request arrives at most `delay` after the instant its quota unit was spent. */
  ghost predicate Delayed(sent: seq<int>, arrived: seq<int>, delay: int) {
    |sent| == |arrived| && forall i :: 0 <= i < |sent| ==> sent[i] <= arrived[i] <= sent[i] + delay
  }

  lemma {:induction false} DelayedCount(sent: seq<int>, arrived: seq<int>, delay: int, lo: int, hi: int)
    requires Delayed(sent, arrived, delay)
    ensures CountIn(arrived, lo, hi) <= CountIn(sent, lo - delay, hi)
  {
    if sent != [] { DelayedCount(sent[..|sent| - 1], arrived[..|arrived| - 1], delay, lo, hi); }
  }

  /**
   * The client spends its quota before it queues at the pacer, so a request reaches the provider later than its
   * unit was spent. With at most `delay` in between, a quota window longer than the provider's by `delay` is safe.
   */
  lemma DelayedQuotaIsNeverRefused(q: Q.Quota, ops: seq<Q.Op>, traffic: seq<Traffic>, key: string,
                                   windowMs: int, delay: nat)
    requires Q.Fresh(q) && Q.Chronological(ops) && Q.NeverRetuned(ops)
    requires Q.Costly(ops)
    requires windowMs >= 1 && q.policy.windowMs >= windowMs + delay
    requires Chronological(traffic) && Uniform(traffic, key, Spec(q.policy.limit, windowMs))
    requires Delayed(Q.AcceptedAt(q, ops), Arrivals(traffic, key), delay)
    ensures NeverRefused(traffic, key)
  {
    var arrived := Arrivals(traffic, key);
    forall start ensures InWindow(arrived, start, windowMs) <= q.policy.limit {
      ArrivalsWithinQuota(q, ops, arrived, windowMs, delay, start);
    }
    SlidingImpliesFixed(traffic, key, Spec(q.policy.limit, windowMs));
  }

  lemma ArrivalsWithinQuota(q: Q.Quota, ops: seq<Q.Op>, arrived: seq<int>, windowMs: int, delay: nat, start: int)
    requires Q.Fresh(q) && Q.Chronological(ops) && Q.NeverRetuned(ops)
    requires Q.Costly(ops)
    requires windowMs >= 1 && q.policy.windowMs >= windowMs + delay
    requires Delayed(Q.AcceptedAt(q, ops), arrived, delay)
    ensures InWindow(arrived, start, windowMs) <= q.policy.limit
  {
    var end := start + windowMs;
    DelayedCount(Q.AcceptedAt(q, ops), arrived, delay, start, end);
    AcceptedWithinLimit(q, ops, start - delay, end);
  }

  lemma AcceptedWithinLimit(q: Q.Quota, ops: seq<Q.Op>, lo: int, hi: int)
    requires Q.Fresh(q) && Q.Chronological(ops) && Q.NeverRetuned(ops) && Q.Costly(ops)
    requires hi - lo <= q.policy.windowMs
    ensures CountIn(Q.AcceptedAt(q, ops), lo, hi) <= q.policy.limit
  {
    Q.AcceptedWithinSpent(q, ops, lo, hi);
    SpentWithinLimit(q, ops, lo, hi);
  }

  lemma SpentWithinLimit(q: Q.Quota, ops: seq<Q.Op>, lo: int, hi: int)
    requires Q.Fresh(q) && Q.Chronological(ops) && Q.NeverRetuned(ops) && hi - lo <= q.policy.windowMs
    ensures CountIn(Q.History(q, ops), lo, hi) <= q.policy.limit
  {
    Q.SlidingWindowSafe(q, ops, hi - 1);
    CountInWider(Q.History(q, ops), lo, hi, hi - q.policy.windowMs, hi);
  }

  /** For an arbitrary stream within the delay that length is necessary: a fixed quota of any shorter window fails. */
  lemma ShorterQuotaWindowIsRefused(windowMs: int, delay: nat, quotaMs: int, key: string)
    requires windowMs >= 1 && 1 <= quotaMs < windowMs + delay
    ensures var q := Q.Quota(Q.Policy(1, quotaMs), [], 0);
            var ops := [Q.Consume(0, 1), Q.Consume(quotaMs, 1)];
            var spec := Spec(1, windowMs);
            var traffic := [Request(key, spec, Min(delay, quotaMs)), Request(key, spec, quotaMs)];
            Q.Fresh(q) && Q.Chronological(ops) && Q.NeverRetuned(ops)
            && Chronological(traffic) && Uniform(traffic, key, spec)
            && Delayed(Q.AcceptedAt(q, ops), Arrivals(traffic, key), delay)
            && !NeverRefused(traffic, key)
  {
    var q := Q.Quota(Q.Policy(1, quotaMs), [], 0);
    var a, b := Q.Consume(0, 1), Q.Consume(quotaMs, 1);
    AcceptsTwo(q, a, b);
    var spec := Spec(1, windowMs);
    var x, y := Request(key, spec, Min(delay, quotaMs)), Request(key, spec, quotaMs);
    TwoRequests(key, x, y);
    assert After([x])[key] == Window(1, x.now + windowMs);
    assert [x, y][..1] == [x];
    assert !Judge(After([x, y][..1]), key, spec, y.now).allowed;
  }

  lemma AcceptsTwo(q: Q.Quota, a: Q.Op, b: Q.Op)
    requires q.spends == [] && q.policy.limit == 1 && a.Consume? && b.Consume? && a.cost == b.cost == 1
    requires b.now - q.policy.windowMs == a.now
    ensures Q.AcceptedAt(q, [a, b]) == [a.now, b.now]
  {
    assert Q.Repeat(a.now, 1) == [a.now];
    Q.OneMore(q, [], a);
    assert [] + [a] == [a] && [a] + [b] == [a, b];
    assert Q.Run(q, [a]).spends == [a.now] && Q.AcceptedAt(q, [a]) == [a.now];
    assert Q.Pruned([a.now], a.now) == [];
    Q.OneMore(q, [a], b);
  }

  lemma TwoRequests(key: string, x: Traffic, y: Traffic)
    requires x.Request? && y.Request? && x.key == y.key == key
    ensures After([x]) == Counted(map[], key, x.spec, x.now) && Arrivals([x, y], key) == [x.now, y.now]
  {
    assert [x][..0] == [] && [x, y][..1] == [x];
    assert Arrivals([x], key) == [x.now];
  }

  /** What the pacer dispatches passes any provider that allows ceil(window / interval) requests per window. */
  lemma PacedIsNeverRefused(s: R.Settings, steps: seq<R.Step>, traffic: seq<Traffic>, key: string, spec: Spec)
    requires s.Valid() && s.minIntervalMs >= 1 && R.Chronological(steps)
    requires spec.windowMs >= 1
    requires spec.limit >= (spec.windowMs + s.minIntervalMs - 1) / s.minIntervalMs
             || (s.minIntervalMs >= spec.windowMs && spec.limit >= 1)
    requires Chronological(traffic) && Uniform(traffic, key, spec)
    requires Arrivals(traffic, key) == R.GrantTimes(R.Resolutions(s, steps))
    ensures NeverRefused(traffic, key)
  {
    var times := R.GrantTimes(R.Resolutions(s, steps));
    forall start ensures InWindow(times, start, spec.windowMs) <= spec.limit {
      R.PacedUnderAnySchedule(s, steps, start, spec.windowMs);
      if s.minIntervalMs >= spec.windowMs { OneIntervalCovers(spec.windowMs, s.minIntervalMs); }
    }
    SlidingImpliesFixed(traffic, key, spec);
  }

  lemma OneIntervalCovers(w: int, gap: int)
    requires 1 <= w <= gap
    ensures (w + gap - 1) / gap == 1
  {
  }

  // ---- Cleaning is invisible ---------------------------------------------------------------------------------

  function WithoutCleaning(traffic: seq<Traffic>): seq<Traffic> {
    if traffic == [] then []
    else
      var before, last := WithoutCleaning(traffic[..|traffic| - 1]), traffic[|traffic| - 1];
      if last.Clean? then before else before + [last]
  }

  /** The two tables differ only in windows that are over by `now`. */
  ghost predicate SameLive(ws: Windows, us: Windows, now: int) {
    && (forall k :: k in ws ==> k in us && us[k] == ws[k])
    && (forall k :: k in us && k !in ws ==> us[k].resetAt <= now)
  }

  /** Dropping stale windows changes no answer the provider ever gives. */
  lemma {:induction false} CleaningIsInvisible(traffic: seq<Traffic>)
    requires Chronological(traffic)
    ensures Verdicts(traffic) == Verdicts(WithoutCleaning(traffic))
    ensures traffic != [] ==> SameLive(After(traffic), After(WithoutCleaning(traffic)), traffic[|traffic| - 1].now)
  {
    if traffic != [] {
      var before, last := traffic[..|traffic| - 1], traffic[|traffic| - 1];
      CleaningIsInvisible(before);
      if before != [] { assert before[|before| - 1].now <= last.now; }
      var us := WithoutCleaning(before);
      if last.Request? { assert (us + [last])[..|us|] == us; }
    }
  }

  // ---- The class ---------------------------------------------------------------------------------------------

  class RateLimiter {
    var windows: Windows

    constructor ()
      ensures windows == map[]
    {
      windows := map[];
    }

    method Check(key: string, spec: Spec, now: int) returns (verdict: Verdict)
      modifies this
      ensures windows == Counted(old(windows), key, spec, now)
      ensures verdict == Judge(old(windows), key, spec, now)
    {
      var w := Window(0, now + spec.windowMs);
      if key in windows && now < windows[key].resetAt {
        w := windows[key];
      }
      w := w.(count := w.count + 1);
      windows := windows[key := w];
      verdict := Verdict(w.count <= spec.limit, spec.limit, Max(0, spec.limit - w.count), w.resetAt,
                         Max(1, (w.resetAt - now + 999) / 1000));
    }

    method Sweep(now: int)
      modifies this
      ensures windows == Swept(old(windows), now)
      ensures forall k :: k in windows <==> k in old(windows) && now - old(windows)[k].resetAt <= 60_000
      ensures forall k :: k in windows ==> windows[k] == old(windows)[k]
    {
      var keys := windows.Keys;
      while keys != {}
        invariant keys <= windows.Keys
        invariant windows.Keys <= old(windows).Keys
        invariant forall k :: k in windows ==> windows[k] == old(windows)[k] && (k in keys || !Stale(windows[k], now))
        invariant forall k :: k in old(windows) && !Stale(old(windows)[k], now) ==> k in windows
        decreases |keys|
      {
        var k :| k in keys;
        keys := keys - {k};
        if Stale(windows[k], now) {
          windows := windows - {k};
        }
      }
    }

    method Reset()
      modifies this
      ensures windows == map[]
    {
      windows := map[];
    }
  }
}
