/** The whole client stack against the provider that polices it. */
module EndToEnd {
  import opened Common
  import B = CircuitBreakers
  import C = ProviderClients
  import M = MockProvider
  import P = PacedClients
  import Q = Quotas
  import R = RateLimiters

  /**
   * However many executions run, retry and interleave, an unpaced client with a fixed quota equal to the provider's
   * limit and window is never refused: quota_exhausted is the only rate limit its callers can see.
   */
  lemma ClientIsNeverRefused(c: C.Config, states: seq<C.Sys>, steps: seq<C.Step>, n: nat,
                             traffic: seq<M.Traffic>, key: string)
    requires !c.paced && !c.adaptive && C.Costly(steps)
    requires C.IsRun(c, states, steps) && n < |states| && states[0].shared.quota.Some?
    requires M.Chronological(traffic)
    requires var policy := states[0].shared.quota.value.policy;
             M.Uniform(traffic, key, M.Spec(policy.limit, policy.windowMs))
    requires M.Arrivals(traffic, key) == states[n].shared.fetchLog
    ensures M.NeverRefused(traffic, key)
  {
    C.UnpacedSendsWhenSpent(c, states, steps, n);
    C.SharedPartsRun(c, states, steps, n);
    C.CostsAreAsked(c, states, steps, n);
    M.QuotaIsNeverRefused(states[0].shared.quota.value, states[n].shared.quotaLog, traffic, key);
  }

  /** In any window, all executions together fetch at most the limit. */
  lemma FetchesWithinQuota(c: C.Config, states: seq<C.Sys>, steps: seq<C.Step>, n: nat, end: int)
    requires !c.paced && !c.adaptive && C.Costly(steps)
    requires C.IsRun(c, states, steps) && n < |states| && states[0].shared.quota.Some?
    ensures C.Total(states[n].execs, C.OfFetch) == |states[n].shared.fetchLog|
    ensures var policy := states[0].shared.quota.value.policy;
            CountIn(states[n].shared.fetchLog, end - policy.windowMs, end) <= policy.limit
  {
    C.FetchesLeave(c, states, steps, n);
    C.UnpacedSendsWhenSpent(c, states, steps, n);
    C.SharedPartsRun(c, states, steps, n);
    C.CostsAreAsked(c, states, steps, n);
    var first := states[0].shared.quota.value;
    M.AcceptedWithinLimit(first, states[n].shared.quotaLog, end - first.policy.windowMs, end);
  }

  /**
   * A paced client is never refused by a provider that allows ceil(window / interval) requests per window, however its
   * executions run, retry and interleave, wake early or are swept away.
   */
  lemma PacedClientIsNeverRefused(c: C.Config, ps: R.Settings, states: seq<P.Joint>, steps: seq<P.Step>, n: nat,
                                  traffic: seq<M.Traffic>, key: string, spec: M.Spec)
    requires c.paced && ps.Valid() && ps.minIntervalMs >= 1 && P.IsRun(c, ps, states, steps) && n < |states|
    requires spec.windowMs >= 1 && spec.limit >= (spec.windowMs + ps.minIntervalMs - 1) / ps.minIntervalMs
    requires M.Chronological(traffic) && M.Uniform(traffic, key, spec)
    requires M.Arrivals(traffic, key) == states[n].client.shared.fetchLog
    ensures M.NeverRefused(traffic, key)
  {
    var times := states[n].client.shared.fetchLog;
    forall start ensures InWindow(times, start, spec.windowMs) <= spec.limit {
      P.FetchesAreSpaced(c, ps, states, steps, n, start, spec.windowMs);
    }
    M.SlidingImpliesFixed(traffic, key, spec);
  }

  // ---- Quota and pacer together ------------------------------------------------------------------------------

  /** The instants at which the requests sent so far had asked for their slots, seen through any quota window. */
  lemma AskedWithinQuota(c: C.Config, ps: R.Settings, states: seq<P.Joint>, steps: seq<P.Step>, n: nat, lo: int, w: int)
    requires c.paced && !c.adaptive && P.Costly(steps) && P.IsRun(c, ps, states, steps) && n < |states|
    requires states[0].client.shared.quota.Some? && w <= states[0].client.shared.quota.value.policy.windowMs
    ensures InWindow(states[n].sent, lo, w) <= states[0].client.shared.quota.value.policy.limit
  {
    var first, log := states[0].client.shared.quota.value, states[n].client.shared.quotaLog;
    P.AlwaysSpentFor(c, ps, states, steps, n, lo, lo + w);
    M.AcceptedWithinLimit(first, log, lo, lo + w);
  }

  /**
   * With sleeps that end on time the pacer costs the quota nothing: the requests of a paced client, though they leave
   * later than their units were spent, stay within the quota in every window of the quota's own length.
   */
  lemma PacedFetchesWithinQuota(c: C.Config, ps: R.Settings, states: seq<P.Joint>, steps: seq<P.Step>, n: nat,
                                start: int)
    requires c.paced && !c.adaptive && ps.Valid() && P.Costly(steps)
    requires P.IsRun(c, ps, states, steps) && P.TimelyRun(ps, states, 0) && n < |states|
    requires states[0].client.shared.quota.Some?
    ensures var policy := states[0].client.shared.quota.value.policy;
            InWindow(states[n].client.shared.fetchLog, start, policy.windowMs) <= policy.limit
  {
    var policy, j := states[0].client.shared.quota.value.policy, states[n];
    var asked, fetched := j.sent, j.client.shared.fetchLog;
    P.RequestsLeaveInTurn(c, ps, states, steps, n, 0);
    forall lo ensures InWindow(asked, lo, policy.windowMs) <= policy.limit {
      AskedWithinQuota(c, ps, states, steps, n, lo, policy.windowMs);
    }
    P.AskedInOrder(ps, j, 0);
    P.SpreadIff(asked, policy.windowMs, policy.limit);
    forall i: nat | i + policy.limit < |fetched| ensures P.Apart(fetched, policy.windowMs, policy.limit, i) {
      P.PacingKeepsSpread(ps, asked, fetched, policy.windowMs, policy.limit, i);
    }
    P.FetchesAreSpaced(c, ps, states, steps, n, 0, 0);
    R.SpacedIsSorted(fetched, ps.minIntervalMs);
    P.SpreadBounds(fetched, policy.windowMs, policy.limit, start);
  }

  /**
   * So a paced client with a fixed quota of the provider's limit, over a window at least as long as the provider's,
   * is never refused while its sleeps end on time.
   */
  lemma PacedQuotaIsNeverRefused(c: C.Config, ps: R.Settings, states: seq<P.Joint>, steps: seq<P.Step>, n: nat,
                                 traffic: seq<M.Traffic>, key: string, windowMs: int)
    requires c.paced && !c.adaptive && ps.Valid() && P.Costly(steps)
    requires P.IsRun(c, ps, states, steps) && P.TimelyRun(ps, states, 0) && n < |states|
    requires states[0].client.shared.quota.Some?
    requires 1 <= windowMs <= states[0].client.shared.quota.value.policy.windowMs
    requires M.Chronological(traffic)
    requires M.Uniform(traffic, key, M.Spec(states[0].client.shared.quota.value.policy.limit, windowMs))
    requires M.Arrivals(traffic, key) == states[n].client.shared.fetchLog
    ensures M.NeverRefused(traffic, key)
  {
    var policy, times := states[0].client.shared.quota.value.policy, states[n].client.shared.fetchLog;
    forall start ensures InWindow(times, start, windowMs) <= policy.limit {
      PacedFetchesWithinQuota(c, ps, states, steps, n, start);
      CountInWider(times, start, start + windowMs, start, start + policy.windowMs);
    }
    M.SlidingImpliesFixed(traffic, key, M.Spec(policy.limit, windowMs));
  }

  /**
   * If sleeps may end up to `late` after they were due, a quota window longer than the provider's by the longest wait,
   * maxQueueDepth * (minIntervalMs + late), is still safe.
   */
  lemma LatePacedQuotaIsNeverRefused(c: C.Config, ps: R.Settings, states: seq<P.Joint>, steps: seq<P.Step>, n: nat,
                                     traffic: seq<M.Traffic>, key: string, windowMs: int, late: nat)
    requires c.paced && !c.adaptive && ps.Valid() && P.Costly(steps)
    requires P.IsRun(c, ps, states, steps) && P.TimelyRun(ps, states, late) && n < |states|
    requires states[0].client.shared.quota.Some? && windowMs >= 1
    requires states[0].client.shared.quota.value.policy.windowMs >= windowMs + P.Longest(ps, late)
    requires M.Chronological(traffic)
    requires M.Uniform(traffic, key, M.Spec(states[0].client.shared.quota.value.policy.limit, windowMs))
    requires M.Arrivals(traffic, key) == states[n].client.shared.fetchLog
    ensures M.NeverRefused(traffic, key)
  {
    var limit := states[0].client.shared.quota.value.policy.limit;
    forall start ensures InWindow(states[n].client.shared.fetchLog, start, windowMs) <= limit {
      LateFetchesWithinQuota(c, ps, states, steps, n, windowMs, late, start);
    }
    M.SlidingImpliesFixed(traffic, key, M.Spec(limit, windowMs));
  }

  lemma LateFetchesWithinQuota(c: C.Config, ps: R.Settings, states: seq<P.Joint>, steps: seq<P.Step>, n: nat,
                               windowMs: int, late: nat, start: int)
    requires c.paced && !c.adaptive && ps.Valid() && P.Costly(steps)
    requires P.IsRun(c, ps, states, steps) && P.TimelyRun(ps, states, late) && n < |states|
    requires states[0].client.shared.quota.Some? && windowMs >= 1
    requires states[0].client.shared.quota.value.policy.windowMs >= windowMs + P.Longest(ps, late)
    ensures var limit := states[0].client.shared.quota.value.policy.limit;
            InWindow(states[n].client.shared.fetchLog, start, windowMs) <= limit
  {
    var j, delay := states[n], P.Longest(ps, late);
    P.WaitIsBounded(c, ps, states, steps, n, late);
    M.DelayedCount(j.sent, j.client.shared.fetchLog, delay, start, start + windowMs);
    AskedWithinQuota(c, ps, states, steps, n, start - delay, windowMs + delay);
  }

  // ---- What one late sleep breaks ----------------------------------------------------------------------------

  /** A run in which no sleep is late by more than `late` and every request costs a unit. */
  ghost predicate LateRun(c: C.Config, ps: R.Settings, late: nat, states: seq<P.Joint>, steps: seq<P.Step>) {
    P.IsRun(c, ps, states, steps) && P.TimelyRun(ps, states, late) && P.Costly(steps)
  }

  lemma ExtendRun(c: C.Config, ps: R.Settings, late: nat, states: seq<P.Joint>, steps: seq<P.Step>, step: P.Step)
    returns (states': seq<P.Joint>, steps': seq<P.Step>)
    requires LateRun(c, ps, late, states, steps) && P.Enabled(c, ps, states[|steps|], step)
    requires P.Timely(ps, P.Next(c, ps, states[|steps|], step), late)
    requires step.Client? && step.step.Begin? ==> step.step.cost >= 1
    ensures LateRun(c, ps, late, states', steps') && |steps'| == |steps| + 1
    ensures states'[0] == states[0] && states'[|steps'|] == P.Next(c, ps, states[|steps|], step)
  {
    states', steps' := states + [P.Next(c, ps, states[|steps|], step)], steps + [step];
  }

  /** What a client that never fails has spent, asked and sent, and where its pacer is. */
  ghost predicate Stage(j: P.Joint, policy: Q.Policy, spends: seq<int>, sent: seq<int>, fetched: seq<int>,
                        waits: seq<int>, phase: R.Phase) {
    && j.client.shared.quota == Some(Q.Quota(policy, spends, 0)) && j.client.shared.breaker.state.Closed?
    && j.client.shared.fetchLog == fetched && j.sent == sent && j.waits == waits
    && |j.pacer.queue| == |waits| && j.pacer.phase == phase
    && j.pacer.lastDispatchAt == if fetched == [] then None else Some(fetched[|fetched| - 1])
  }

  /** The next trip round the drain loop may read the clock now. */
  lemma LoopMayRun(c: C.Config, ps: R.Settings, states: seq<P.Joint>, steps: seq<P.Step>)
    requires c.paced && P.IsRun(c, ps, states, steps) && states[|steps|].pacer.phase.Looping?
    ensures P.Enabled(c, ps, states[|steps|], P.Loop(states[|steps|].Now()))
  {
    P.AlwaysExplained(c, ps, states, steps, |steps|);
    P.SlotsFindTheirExecution(c, ps, states, steps, |steps|);
  }

  /** After a pause a call is made and its unit is spent; it is now queued at an idle pacer. */
  lemma Asks(c: C.Config, ps: R.Settings, late: nat, states: seq<P.Joint>, steps: seq<P.Step>, pause: nat,
             policy: Q.Policy, spends: seq<int>, sent: seq<int>, fetched: seq<int>)
    returns (states': seq<P.Joint>, steps': seq<P.Step>)
    requires c.paced && ps.Valid() && LateRun(c, ps, late, states, steps)
    requires Stage(states[|steps|], policy, spends, sent, fetched, [], R.Idle)
    requires |Q.Pruned(spends, states[|steps|].Now() + pause - policy.windowMs)| < policy.limit
    ensures LateRun(c, ps, late, states', steps') && states'[0] == states[0]
    ensures var at := states[|steps|].Now() + pause;
            && states'[|steps'|].Now() == at
            && Stage(states'[|steps'|], policy, Q.Pruned(spends, at - policy.windowMs) + [at], sent, fetched, [at],
                     R.Looping)
  {
    states', steps' := ExtendRun(c, ps, late, states, steps, P.Client(C.Tick(pause)));
    assert Q.Repeat(states'[|steps'|].Now(), 1) == [states'[|steps'|].Now()];
    states', steps' := ExtendRun(c, ps, late, states', steps', P.Client(C.Begin(true, 1)));
  }

  /** A caller whose turn has come is served, and the loop, with nobody left, ends. */
  lemma Serves(c: C.Config, ps: R.Settings, late: nat, states: seq<P.Joint>, steps: seq<P.Step>,
               policy: Q.Policy, spends: seq<int>, sent: seq<int>, fetched: seq<int>, asked: int)
    returns (states': seq<P.Joint>, steps': seq<P.Step>)
    requires c.paced && ps.Valid() && LateRun(c, ps, late, states, steps)
    requires Stage(states[|steps|], policy, spends, sent, fetched, [asked], R.Looping)
    requires fetched == [] || states[|steps|].Now() >= fetched[|fetched| - 1] + ps.minIntervalMs
    ensures LateRun(c, ps, late, states', steps') && states'[0] == states[0]
    ensures var now := states[|steps|].Now();
            && states'[|steps'|].Now() == now
            && Stage(states'[|steps'|], policy, spends, sent + [asked], fetched + [now], [], R.Idle)
  {
    var now := states[|steps|].Now();
    LoopMayRun(c, ps, states, steps);
    states', steps' := ExtendRun(c, ps, late, states, steps, P.Loop(now));
    LoopMayRun(c, ps, states', steps');
    states', steps' := ExtendRun(c, ps, late, states', steps', P.Loop(now));
  }

  /** One who came too soon makes the loop sleep; the sleep ends late by at most `late`. */
  lemma Sleeps(c: C.Config, ps: R.Settings, late: nat, states: seq<P.Joint>, steps: seq<P.Step>, sleep: nat,
               policy: Q.Policy, spends: seq<int>, sent: seq<int>, fetched: seq<int>, asked: int)
    returns (states': seq<P.Joint>, steps': seq<P.Step>)
    requires c.paced && ps.Valid() && LateRun(c, ps, late, states, steps)
    requires Stage(states[|steps|], policy, spends, sent, fetched, [asked], R.Looping) && fetched != []
    requires states[|steps|].Now() < fetched[|fetched| - 1] + ps.minIntervalMs
    requires states[|steps|].Now() + sleep <= fetched[|fetched| - 1] + ps.minIntervalMs + late
    ensures LateRun(c, ps, late, states', steps') && states'[0] == states[0]
    ensures states'[|steps'|].Now() == states[|steps|].Now() + sleep
    ensures Stage(states'[|steps'|], policy, spends, sent, fetched, [asked], R.Looping)
  {
    LoopMayRun(c, ps, states, steps);
    states', steps' := ExtendRun(c, ps, late, states, steps, P.Loop(states[|steps|].Now()));
    states', steps' := ExtendRun(c, ps, late, states', steps', P.Client(C.Tick(sleep)));
    states', steps' := ExtendRun(c, ps, late, states', steps', P.Wake);
  }

  /** A call that finds the pacer free. */
  lemma Calls(c: C.Config, ps: R.Settings, late: nat, states: seq<P.Joint>, steps: seq<P.Step>, pause: nat,
              policy: Q.Policy, spends: seq<int>, sent: seq<int>, fetched: seq<int>)
    returns (states': seq<P.Joint>, steps': seq<P.Step>)
    requires c.paced && ps.Valid() && LateRun(c, ps, late, states, steps)
    requires Stage(states[|steps|], policy, spends, sent, fetched, [], R.Idle)
    requires |Q.Pruned(spends, states[|steps|].Now() + pause - policy.windowMs)| < policy.limit
    requires fetched == [] || states[|steps|].Now() + pause >= fetched[|fetched| - 1] + ps.minIntervalMs
    ensures LateRun(c, ps, late, states', steps') && states'[0] == states[0]
    ensures var at := states[|steps|].Now() + pause;
            && states'[|steps'|].Now() == at
            && Stage(states'[|steps'|], policy, Q.Pruned(spends, at - policy.windowMs) + [at], sent + [at],
                     fetched + [at], [], R.Idle)
  {
    var at := states[|steps|].Now() + pause;
    states', steps' := Asks(c, ps, late, states, steps, pause, policy, spends, sent, fetched);
    states', steps' := Serves(c, ps, late, states', steps', policy, Q.Pruned(spends, at - policy.windowMs) + [at], sent,
                              fetched, at);
  }

  /** A call that comes too soon and sleeps. */
  lemma CallsAndSleeps(c: C.Config, ps: R.Settings, late: nat, states: seq<P.Joint>, steps: seq<P.Step>, pause: nat,
                       sleep: nat, policy: Q.Policy, spends: seq<int>, sent: seq<int>, fetched: seq<int>)
    returns (states': seq<P.Joint>, steps': seq<P.Step>)
    requires c.paced && ps.Valid() && LateRun(c, ps, late, states, steps) && fetched != []
    requires Stage(states[|steps|], policy, spends, sent, fetched, [], R.Idle)
    requires |Q.Pruned(spends, states[|steps|].Now() + pause - policy.windowMs)| < policy.limit
    requires var at, free := states[|steps|].Now() + pause, fetched[|fetched| - 1] + ps.minIntervalMs;
             at < free <= at + sleep <= free + late
    ensures LateRun(c, ps, late, states', steps') && states'[0] == states[0]
    ensures var at := states[|steps|].Now() + pause;
            && states'[|steps'|].Now() == at + sleep
            && Stage(states'[|steps'|], policy, Q.Pruned(spends, at - policy.windowMs) + [at], sent + [at],
                     fetched + [at + sleep], [], R.Idle)
  {
    var at := states[|steps|].Now() + pause;
    var spends' := Q.Pruned(spends, at - policy.windowMs) + [at];
    states', steps' := Asks(c, ps, late, states, steps, pause, policy, spends, sent, fetched);
    states', steps' := Sleeps(c, ps, late, states', steps', sleep, policy, spends', sent, fetched, at);
    states', steps' := Serves(c, ps, late, states', steps', policy, spends', sent, fetched, at);
  }

  /** The pacer's client that never retries. */
  function Paced(b: B.Settings): C.Config {
    C.Config(b, C.RetryPolicy(1, 0, 0, 0), true, false)
  }

  /** Two calls just before the window turns over, and one that sleeps over the turn. */
  lemma ThreeCalls(b: B.Settings, ps: R.Settings, late: nat, w: int) returns (states: seq<P.Joint>, steps: seq<P.Step>)
    requires ps.Valid() && ps.minIntervalMs >= 2 && 2 * ps.minIntervalMs + late <= w
    ensures LateRun(Paced(b), ps, late, states, steps)
    ensures states[0].client.shared.quota == Some(Q.Quota(Q.Policy(2, w), [], 0))
    ensures var out := w - 1 + ps.minIntervalMs + late;
            && states[|steps|].Now() == out
            && Stage(states[|steps|], Q.Policy(2, w), [w - 1, w], [0, w - 1, w], [0, w - 1, out], [], R.Idle)
  {
    var c, policy := Paced(b), Q.Policy(2, w);
    var client := C.Sys(C.Shared(0, B.INITIAL, Some(Q.Quota(policy, [], 0)), 0, 0, [], [], []), []);
    states, steps := [P.Joint(client, R.INITIAL, [], [], {}, [])], [];
    assert Q.Pruned([], -w) == [] && [] + [0] == [0];
    states, steps := Calls(c, ps, late, states, steps, 0, policy, [], [], []);
    assert Q.Pruned([0], -1) == [0] && [0] + [w - 1] == [0, w - 1];
    states, steps := Calls(c, ps, late, states, steps, w - 1, policy, [0], [0], [0]);
    assert Q.Pruned([0, w - 1], 0) == [w - 1] by { assert [0, w - 1][1..] == [w - 1]; }
    assert [w - 1] + [w] == [w - 1, w] && [0, w - 1] + [w] == [0, w - 1, w];
    states, steps := CallsAndSleeps(c, ps, late, states, steps, 1, ps.minIntervalMs - 1 + late, policy, [0, w - 1],
                                    [0, w - 1], [0, w - 1]);
  }

  /** The five instants at which the run's requests leave. */
  function Leaving(gap: int, late: int, w: int): seq<int> {
    [0, w - 1, w - 1 + gap + late, 2 * w - 1, 2 * w - 1 + gap]
  }

  lemma FiveCalls(b: B.Settings, ps: R.Settings, late: nat, w: int) returns (states: seq<P.Joint>, steps: seq<P.Step>)
    requires ps.Valid() && ps.minIntervalMs >= 2 && 2 * ps.minIntervalMs + late <= w
    ensures LateRun(Paced(b), ps, late, states, steps)
    ensures states[0].client.shared.quota == Some(Q.Quota(Q.Policy(2, w), [], 0))
    ensures states[|steps|].sent == [0, w - 1, w, 2 * w - 1, 2 * w]
    ensures states[|steps|].client.shared.fetchLog == Leaving(ps.minIntervalMs, late, w)
  {
    var c, policy, gap := Paced(b), Q.Policy(2, w), ps.minIntervalMs;
    var out := w - 1 + gap + late;
    states, steps := ThreeCalls(b, ps, late, w);
    assert Q.Pruned([w - 1, w], w - 1) == [w] by { assert [w - 1, w][1..] == [w]; }
    assert [w] + [2 * w - 1] == [w, 2 * w - 1];
    states, steps := Calls(c, ps, late, states, steps, w - gap - late, policy, [w - 1, w], [0, w - 1, w],
                           [0, w - 1, out]);
    var sent, fetched := [0, w - 1, w] + [2 * w - 1], [0, w - 1, out] + [2 * w - 1];
    assert Q.Pruned([w, 2 * w - 1], w) == [2 * w - 1] by { assert [w, 2 * w - 1][1..] == [2 * w - 1]; }
    states, steps := CallsAndSleeps(c, ps, late, states, steps, 1, gap - 1, policy, [w, 2 * w - 1], sent, fetched);
    assert fetched + [2 * w - 1 + gap] == Leaving(gap, late, w);
  }

  /** Requests under one key at the given instants. */
  function Requests(key: string, spec: M.Spec, times: seq<int>): seq<M.Traffic> {
    seq(|times|, i requires 0 <= i < |times| => M.Request(key, spec, times[i]))
  }

  lemma {:induction false} RequestsArrive(key: string, spec: M.Spec, times: seq<int>)
    requires NonDecreasing(times)
    ensures M.Chronological(Requests(key, spec, times)) && M.Uniform(Requests(key, spec, times), key, spec)
    ensures M.Arrivals(Requests(key, spec, times), key) == times
  {
    if times != [] {
      var before := times[..|times| - 1];
      RequestsArrive(key, spec, before);
      assert Requests(key, spec, times)[..|before|] == Requests(key, spec, before);
    }
  }

  lemma OneMoreRequest(key: string, spec: M.Spec, times: seq<int>, at: int)
    ensures M.After(Requests(key, spec, times + [at])) == M.Counted(M.After(Requests(key, spec, times)), key, spec, at)
    ensures Requests(key, spec, times + [at])[..|times|] == Requests(key, spec, times)
  {
    assert Requests(key, spec, times + [at])[..|times|] == Requests(key, spec, times);
  }

  /** The provider's window a sequence of requests leaves open. */
  ghost predicate Opened(key: string, spec: M.Spec, times: seq<int>, count: nat, resetAt: int) {
    var ws := M.After(Requests(key, spec, times));
    key in ws && ws[key] == M.Window(count, resetAt)
  }

  lemma OpensWindow(key: string, spec: M.Spec, times: seq<int>, at: int)
    requires times == [] || exists n: nat, end :: end <= at && Opened(key, spec, times, n, end)
    ensures Opened(key, spec, times + [at], 1, at + spec.windowMs)
  {
    OneMoreRequest(key, spec, times, at);
    if times == [] { assert Requests(key, spec, times) == []; }
  }

  lemma JoinsWindow(key: string, spec: M.Spec, times: seq<int>, at: int, n: nat, end: int)
    requires Opened(key, spec, times, n, end) && at < end
    ensures Opened(key, spec, times + [at], n + 1, end)
    ensures M.Judge(M.After(Requests(key, spec, times)), key, spec, at)
            == M.Verdict(n + 1 <= spec.limit, spec.limit, Max(0, spec.limit - (n + 1)), end,
                         Max(1, (end - at + 999) / 1000))
  {
    OneMoreRequest(key, spec, times, at);
  }

  lemma RefusedLast(key: string, spec: M.Spec, times: seq<int>, at: int, n: nat, end: int)
    requires Opened(key, spec, times, n, end) && at < end && n >= spec.limit
    ensures !M.NeverRefused(Requests(key, spec, times + [at]), key)
  {
    JoinsWindow(key, spec, times, at, n, end);
    OneMoreRequest(key, spec, times, at);
    var traffic := Requests(key, spec, times + [at]);
    assert traffic[|times|] == M.Request(key, spec, at);
    assert !M.Judge(M.After(traffic[..|times|]), key, spec, at).allowed;
  }

  /** A window of two requests, and the next one after it is over. */
  lemma WindowTurns(key: string, spec: M.Spec, a: int, b: int, c: int)
    requires a <= b < a + spec.windowMs <= c
    ensures Opened(key, spec, [a] + [b] + [c], 1, c + spec.windowMs)
  {
    OpensWindow(key, spec, [], a);
    assert [] + [a] == [a];
    JoinsWindow(key, spec, [a], b, 1, a + spec.windowMs);
    OpensWindow(key, spec, [a] + [b], c);
  }

  lemma ThirdOfWindow(key: string, spec: M.Spec, times: seq<int>, d: int, e: int, end: int)
    requires Opened(key, spec, times, 1, end) && d <= e < end && spec.limit == 2
    ensures !M.NeverRefused(Requests(key, spec, times + [d] + [e]), key)
  {
    JoinsWindow(key, spec, times, d, 1, end);
    RefusedLast(key, spec, times + [d], e, 2, end);
  }

  lemma LeavingIsRefused(key: string, gap: int, late: int, w: int)
    requires gap >= 2 && late >= 1 && 2 * gap + late <= w
    ensures !M.NeverRefused(Requests(key, M.Spec(2, w), Leaving(gap, late, w)), key)
  {
    var c := w - 1 + gap + late;
    WindowTurns(key, M.Spec(2, w), 0, w - 1, c);
    ThirdOfWindow(key, M.Spec(2, w), [0] + [w - 1] + [c], 2 * w - 1, 2 * w - 1 + gap, c + w);
    assert [0] + [w - 1] + [c] + [2 * w - 1] + [2 * w - 1 + gap] == Leaving(gap, late, w);
  }

  /** Every request left as soon as it might, except one that left `late` after that. */
  ghost predicate LateOnce(ps: R.Settings, late: int, asked: seq<int>, fetched: seq<int>, which: nat) {
    && |asked| == |fetched| > which
    && forall k :: 0 <= k < |fetched| ==>
         fetched[k] == P.Earliest(ps, asked, fetched, k) + if k == which then late else 0
  }

  lemma LeavingIsLateOnce(ps: R.Settings, late: int, w: int)
    requires ps.minIntervalMs >= 2 && late >= 1 && 2 * ps.minIntervalMs + late <= w
    ensures LateOnce(ps, late, [0, w - 1, w, 2 * w - 1, 2 * w], Leaving(ps.minIntervalMs, late, w), 2)
  {
    var asked, fetched := [0, w - 1, w, 2 * w - 1, 2 * w], Leaving(ps.minIntervalMs, late, w);
    assert P.Earliest(ps, asked, fetched, 2) == w - 1 + ps.minIntervalMs;
    assert P.Earliest(ps, asked, fetched, 3) == 2 * w - 1;
    assert P.Earliest(ps, asked, fetched, 4) == 2 * w - 1 + ps.minIntervalMs;
  }

  /**
   * What the extra length is for: with a quota window equal to the provider's, one sleep that ends a millisecond late
   * can get a paced client refused. The third of five requests leaves late, opens a window of the provider's that much
   * later, and the fourth and fifth fall into it.
   */
  lemma LateSleepIsRefused(b: B.Settings, ps: R.Settings, windowMs: int, late: nat, key: string)
    returns (c: C.Config, states: seq<P.Joint>, steps: seq<P.Step>, traffic: seq<M.Traffic>)
    requires b.Valid() && b.successThreshold >= 1 && ps.Valid()
    requires ps.minIntervalMs >= 2 && late >= 1 && 2 * ps.minIntervalMs + late <= windowMs
    ensures c.Valid() && c.breaker == b && c.paced && !c.adaptive && P.Costly(steps)
    ensures P.IsRun(c, ps, states, steps) && P.TimelyRun(ps, states, late)
    ensures states[0].client.shared.quota == Some(Q.Quota(Q.Policy(2, windowMs), [], 0))
    ensures LateOnce(ps, late, states[|steps|].sent, states[|steps|].client.shared.fetchLog, 2)
    ensures M.Chronological(traffic) && M.Uniform(traffic, key, M.Spec(2, windowMs))
    ensures M.Arrivals(traffic, key) == states[|steps|].client.shared.fetchLog && !M.NeverRefused(traffic, key)
  {
    c := Paced(b);
    states, steps := FiveCalls(b, ps, late, windowMs);
    LeavingIsLateOnce(ps, late, windowMs);
    LeavingIsRefused(key, ps.minIntervalMs, late, windowMs);
    traffic := Requests(key, M.Spec(2, windowMs), Leaving(ps.minIntervalMs, late, windowMs));
    RequestsArrive(key, M.Spec(2, windowMs), Leaving(ps.minIntervalMs, late, windowMs));
  }

  // ---- Headers that shorten the window -----------------------------------------------------------------------

  /** What a client adopts from the headers of an answer: the limit, and the seconds left as the window. */
  function Declared(v: M.Verdict): Q.Policy {
    Q.Policy(v.limit, v.resetInSeconds * 1000)
  }

  /** A client that takes its quota from the headers and has no pacer. */
  function Adaptive(b: B.Settings): C.Config {
    C.Config(b, C.RetryPolicy(1, 0, 0, 0), false, true)
  }

  /** Calls in flight, what the quota has become, and when each was sent. */
  ghost predicate InFlight(s: C.Sys, now: int, quota: Q.Quota, fetched: seq<int>) {
    && s.shared.now == now && s.shared.quota == Some(quota) && s.shared.breaker.state.Closed?
    && s.shared.fetchLog == fetched && |s.execs| == |fetched|
    && forall i :: 0 <= i < |s.execs| ==> s.execs[i].phase.Fetching?
  }

  /** Every header adopted is the one the provider's answer to that very call carried. */
  ghost predicate AdoptsAnswers(steps: seq<C.Step>, answers: seq<M.Verdict>) {
    forall n :: 0 <= n < |steps| && steps[n].Headers? ==>
      steps[n].i < |answers| && steps[n].policy == Some(Declared(answers[steps[n].i]))
  }

  /** The run so far: what it began with and what it adopted. */
  ghost predicate AdaptiveRun(c: C.Config, first: Q.Quota, states: seq<C.Sys>, steps: seq<C.Step>,
                              answers: seq<M.Verdict>) {
    && C.IsRun(c, states, steps) && C.Costly(steps) && AdoptsAnswers(steps, answers)
    && states[0].shared.quota == Some(first)
  }

  /** After a pause a call that fits the quota goes out at once. */
  lemma GoesOut(b: B.Settings, first: Q.Quota, states: seq<C.Sys>, steps: seq<C.Step>, answers: seq<M.Verdict>,
                now: int, pause: nat, quota: Q.Quota, fetched: seq<int>)
    returns (states': seq<C.Sys>, steps': seq<C.Step>)
    requires AdaptiveRun(Adaptive(b), first, states, steps, answers)
    requires InFlight(states[|steps|], now, quota, fetched) && Q.Fits(quota, now + pause, 1)
    ensures AdaptiveRun(Adaptive(b), first, states', steps', answers)
    ensures InFlight(states'[|steps'|], now + pause, Q.Consumed(quota, now + pause, 1), fetched + [now + pause])
  {
    states', steps' := C.ExtendRun(Adaptive(b), states, steps, C.Tick(pause));
    states', steps' := C.ExtendRun(Adaptive(b), states', steps', C.Begin(true, 1));
  }

  /** Its answer comes back at once and is adopted. */
  lemma ComesBack(b: B.Settings, first: Q.Quota, states: seq<C.Sys>, steps: seq<C.Step>, answers: seq<M.Verdict>,
                  now: int, i: nat, quota: Q.Quota, fetched: seq<int>)
    returns (states': seq<C.Sys>, steps': seq<C.Step>)
    requires AdaptiveRun(Adaptive(b), first, states, steps, answers)
    requires InFlight(states[|steps|], now, quota, fetched) && i < |fetched| && i < |answers|
    ensures AdaptiveRun(Adaptive(b), first, states', steps', answers)
    ensures InFlight(states'[|steps'|], now, Q.Retuned(quota, now, Declared(answers[i])), fetched)
  {
    states', steps' := C.ExtendRun(Adaptive(b), states, steps, C.Headers(i, Some(Declared(answers[i]))));
  }

  /** How the counter fares: it forgets the unit spent at the start when it adopts the remainder `h`. */
  lemma CounterForgets(q: Q.Quota, r: Q.Quota, t: int, h: int)
    requires h >= 2 && q == Q.Quota(Q.Policy(2, 2 * h), [], 0) && r == Q.Quota(Q.Policy(2, 2 * h), [t, t + h], 0)
    ensures Q.Fits(q, t, 1) && Q.Consumed(q, t, 1) == q.(spends := [t])
    ensures Q.Fits(q.(spends := [t]), t + h, 1) && Q.Consumed(q.(spends := [t]), t + h, 1) == r
    ensures Q.Retuned(r, t + h, Q.Policy(2, h)) == Q.Quota(Q.Policy(2, h), [t + h], 0)
    ensures Q.Fits(Q.Quota(Q.Policy(2, h), [t + h], 0), t + h + 1, 1)
  {
    assert Q.Repeat(t, 1) == [t] && Q.Repeat(t + h, 1) == [t + h];
    assert Q.Pruned([t, t + h], t) == [t + h] by { assert [t, t + h][1..] == [t + h]; }
    assert Q.Pruned([t + h], t + 1) == [t + h];
  }

  /** Three calls, at `t`, `h` later and one millisecond after that. */
  lemma ThreeAdaptiveCalls(b: B.Settings, t: int, h: int, answers: seq<M.Verdict>)
    returns (states: seq<C.Sys>, steps: seq<C.Step>)
    requires h >= 2 && |answers| >= 2
    requires Declared(answers[0]) == Q.Policy(2, 2 * h) && Declared(answers[1]) == Q.Policy(2, h)
    ensures AdaptiveRun(Adaptive(b), Q.Quota(Q.Policy(2, 2 * h), [], 0), states, steps, answers)
    ensures states[|steps|].shared.fetchLog == [t, t + h, t + h + 1]
  {
    var q := Q.Quota(Q.Policy(2, 2 * h), [], 0);
    var one, r, s := q.(spends := [t]), q.(spends := [t, t + h]), Q.Quota(Q.Policy(2, h), [t + h], 0);
    CounterForgets(q, r, t, h);
    states, steps := [C.Sys(C.Shared(t, B.INITIAL, Some(q), 0, 0, [], [], []), [])], [];
    states, steps := GoesOut(b, q, states, steps, answers, t, 0, q, []);
    states, steps := ComesBack(b, q, states, steps, answers, t, 0, one, [] + [t]);
    states, steps := GoesOut(b, q, states, steps, answers, t, h, one, [] + [t]);
    states, steps := ComesBack(b, q, states, steps, answers, t + h, 1, r, [] + [t] + [t + h]);
    states, steps := GoesOut(b, q, states, steps, answers, t + h, 1, s, [] + [t] + [t + h]);
  }

  lemma VerdictsOneMore(key: string, spec: M.Spec, times: seq<int>, at: int)
    ensures M.Verdicts(Requests(key, spec, times + [at]))
            == M.Verdicts(Requests(key, spec, times)) + [M.Judge(M.After(Requests(key, spec, times)), key, spec, at)]
  {
    OneMoreRequest(key, spec, times, at);
    assert Requests(key, spec, times + [at])[|times|] == M.Request(key, spec, at);
  }

  lemma ThreeAnswers(key: string, spec: M.Spec, a: int, b: int, c: int, traffic: seq<M.Traffic>)
    requires traffic == Requests(key, spec, [a] + [b] + [c])
    ensures M.Verdicts(traffic)
            == [M.Judge(M.After(Requests(key, spec, [])), key, spec, a),
                M.Judge(M.After(Requests(key, spec, [a])), key, spec, b),
                M.Judge(M.After(Requests(key, spec, [a] + [b])), key, spec, c)]
  {
    assert [] + [a] == [a];
    FirstVerdict(key, spec, a);
    VerdictsOneMore(key, spec, [], a);
    VerdictsOneMore(key, spec, [a], b);
    VerdictsOneMore(key, spec, [a] + [b], c);
  }

  /** What the provider makes of them: a full window, half of one, and a refusal. */
  lemma ThreeJudgements(key: string, spec: M.Spec, t: int, h: int)
    requires h >= 2 && spec == M.Spec(2, 2 * h)
    ensures var first := M.Judge(M.After(Requests(key, spec, [])), key, spec, t);
            first.allowed && first.limit == 2 && first.resetInSeconds == Max(1, (2 * h + 999) / 1000)
    ensures var second := M.Judge(M.After(Requests(key, spec, [t])), key, spec, t + h);
            second.allowed && second.limit == 2 && second.resetInSeconds == Max(1, (h + 999) / 1000)
    ensures !M.Judge(M.After(Requests(key, spec, [t] + [t + h])), key, spec, t + h + 1).allowed
  {
    FirstVerdict(key, spec, t);
    OpensWindow(key, spec, [], t);
    assert [] + [t] == [t];
    JoinsWindow(key, spec, [t], t + h, 1, t + 2 * h);
    JoinsWindow(key, spec, [t] + [t + h], t + h + 1, 2, t + 2 * h);
  }

  lemma WholeSeconds(ms: int)
    requires ms >= 1 && ms % 1000 == 0
    ensures Max(1, (ms + 999) / 1000) * 1000 == ms
  {
  }

  lemma ThreeVerdicts(key: string, spec: M.Spec, t: int, h: int, traffic: seq<M.Traffic>)
    requires h >= 1 && h % 1000 == 0 && spec == M.Spec(2, 2 * h)
    requires traffic == Requests(key, spec, [t] + [t + h] + [t + h + 1])
    ensures var vs := M.Verdicts(traffic);
            && |vs| == 3 && vs[0].allowed && vs[1].allowed && !vs[2].allowed
            && Declared(vs[0]) == Q.Policy(2, 2 * h) && Declared(vs[1]) == Q.Policy(2, h)
  {
    ThreeAnswers(key, spec, t, t + h, t + h + 1, traffic);
    ThreeJudgements(key, spec, t, h);
    WholeSeconds(h);
    WholeSeconds(2 * h);
  }

  lemma ThirdIsRefused(key: string, t: int, h: int)
    requires h >= 2
    ensures !M.NeverRefused(Requests(key, M.Spec(2, 2 * h), [t] + [t + h] + [t + h + 1]), key)
  {
    OpensWindow(key, M.Spec(2, 2 * h), [], t);
    assert [] + [t] == [t];
    ThirdOfWindow(key, M.Spec(2, 2 * h), [t], t + h, t + h + 1, t + 2 * h);
  }

  lemma FirstVerdict(key: string, spec: M.Spec, t: int)
    ensures M.Judge(M.After(Requests(key, spec, [])), key, spec, t)
            == M.Verdict(1 <= spec.limit, spec.limit, Max(0, spec.limit - 1), t + spec.windowMs,
                         Max(1, (spec.windowMs + 999) / 1000))
    ensures M.Verdicts(Requests(key, spec, [])) == []
  {
    assert Requests(key, spec, []) == [];
  }

  /**
   * A client that adopts the headers is refused, though its quota began as the provider's own and it adopts exactly
   * what each answer declares: halfway through the provider's window the remainder it adopts no longer covers the first
   * call, and the third passes the counter.
   */
  lemma AdaptiveClientIsRefused(b: B.Settings, t: int, h: int, key: string)
    returns (c: C.Config, states: seq<C.Sys>, steps: seq<C.Step>, traffic: seq<M.Traffic>)
    requires b.Valid() && b.successThreshold >= 1 && h >= 1 && h % 1000 == 0
    ensures c.Valid() && c.breaker == b && c.adaptive && !c.paced && C.Costly(steps) && C.IsRun(c, states, steps)
    ensures states[0].shared.quota == Some(Q.Quota(Q.Policy(2, 2 * h), [], 0))
    ensures AdoptsAnswers(steps, M.Verdicts(traffic))
    ensures M.Chronological(traffic) && M.Uniform(traffic, key, M.Spec(2, 2 * h))
    ensures M.Arrivals(traffic, key) == states[|steps|].shared.fetchLog == [t, t + h, t + h + 1]
    ensures var answers := M.Verdicts(traffic);
            |answers| == 3 && answers[0].allowed && answers[1].allowed && !answers[2].allowed
    ensures !M.NeverRefused(traffic, key)
  {
    var times := [t] + [t + h] + [t + h + 1];
    c, traffic := Adaptive(b), Requests(key, M.Spec(2, 2 * h), times);
    ThreeVerdicts(key, M.Spec(2, 2 * h), t, h, traffic);
    RequestsArrive(key, M.Spec(2, 2 * h), times);
    ThirdIsRefused(key, t, h);
    states, steps := ThreeAdaptiveCalls(b, t, h, M.Verdicts(traffic));
  }
}
