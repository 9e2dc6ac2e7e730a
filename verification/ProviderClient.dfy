/**
 * The provider client: kill switch, circuit breaker, quota, pacer and retry loop composed. Many executions run
 * concurrently; each segment of `#execute` between two awaits is one atomic step of the interleaving model.
 */
module ProviderClients {
  import opened Common
  import B = CircuitBreakers
  import Q = Quotas

  // ---- Errors, outcomes and backoff --------------------------------------------------------------------------

  datatype ErrorKind =
    | Timeout | Network | Http | RateLimited | ServerError | Malformed
    | CircuitOpen | QuotaExhausted | Disabled | QueueOverflow

  predicate Retryable(kind: ErrorKind) {
    kind in {Timeout, Network, RateLimited, ServerError}
  }

  /** A failure is evidence about the provider's health exactly when it is worth retrying; a 429 is both. */
  predicate CountsAgainstProvider(kind: ErrorKind) {
    Retryable(kind)
  }

  /** What one HTTP exchange produced. */
  datatype Reply = Aborted | ConnectionFailed | Response(status: int, retryAfterMs: Option<nat>)

  datatype Outcome = Answer(status: int) | Failure(kind: ErrorKind, retryAfterMs: Option<nat>)

  /** `accepted` are the statuses the caller declared empty or wants the body of. */
  function Classify(reply: Reply, accepted: set<int>): (o: Outcome)
    ensures o.Failure? && CountsAgainstProvider(o.kind)
            <==> !reply.Response? || (reply.status !in accepted && (reply.status == 408 || reply.status == 429
                                                                    || reply.status >= 500))
    ensures o.Answer? <==> reply.Response? && (200 <= reply.status < 300 || reply.status in accepted)
    ensures o.Answer? ==> o.status == reply.status
    ensures o.Failure? ==>
              && (o.kind == Timeout <==> reply.Aborted?) && (o.kind == Network <==> reply.ConnectionFailed?)
              && (o.kind == RateLimited <==> reply.Response? && reply.status == 429)
              && (o.kind == ServerError <==> reply.Response? && (reply.status == 408 || reply.status >= 500))
              && o.kind in {Timeout, Network, RateLimited, ServerError, Http}
              && o.retryAfterMs == if reply.Response? then reply.retryAfterMs else None
  {
    match reply
    case Aborted => Failure(Timeout, None)
    case ConnectionFailed => Failure(Network, None)
    case Response(status, retryAfterMs) =>
      if 200 <= status < 300 || status in accepted then Answer(status)
      else if status == 429 then Failure(RateLimited, retryAfterMs)
      else if status == 408 || status >= 500 then Failure(ServerError, retryAfterMs)
      else Failure(Http, retryAfterMs)
  }

  datatype RetryPolicy = RetryPolicy(maxAttempts: int, baseDelayMs: nat, maxDelayMs: nat, maxRetryAfterMs: nat)

  /** The longest single wait between two attempts. */
  function LongestWait(p: RetryPolicy): nat {
    Max(p.maxDelayMs, p.maxRetryAfterMs + 99)
  }

  /** The largest whole number not above `x`. */
  predicate IsFloor(n: int, x: real) {
    n as real <= x < n as real + 1.0
  }

  /** Full jitter under an exponential ceiling, or the provider's own hint plus a little; None is "give up". */
  function BackoffMs(p: RetryPolicy, attempt: nat, retryAfterMs: Option<nat>, random: real): (ms: Option<nat>)
    requires attempt >= 1 && 0.0 <= random < 1.0
    ensures ms.None? <==> retryAfterMs.Some? && retryAfterMs.value > p.maxRetryAfterMs
    ensures ms.Some? ==> ms.value <= Max(p.maxDelayMs, p.maxRetryAfterMs + 99)
    ensures ms.Some? && retryAfterMs.Some? ==> retryAfterMs.value <= ms.value <= retryAfterMs.value + 99
    ensures ms.Some? && retryAfterMs.Some? ==> IsFloor(ms.value - retryAfterMs.value, random * 100.0)
    ensures ms.Some? && retryAfterMs.None? ==>
              var ceiling := Min(p.maxDelayMs, p.baseDelayMs * Pow2(attempt - 1));
              && (ms.value == 0 || ms.value < ceiling)
              && IsFloor(ms.value, random * (ceiling as real))
  {
    if retryAfterMs.Some? then
      if retryAfterMs.value > p.maxRetryAfterMs then None
      else Some(retryAfterMs.value + (random * 100.0).Floor)
    else
      var ceiling: nat := Min(p.maxDelayMs, p.baseDelayMs * Pow2(attempt - 1));
      JitterBelow(random, ceiling);
      Some((random * (ceiling as real)).Floor)
  }

  lemma JitterBelow(random: real, ceiling: nat)
    requires 0.0 <= random < 1.0
    ensures 0 <= (random * (ceiling as real)).Floor
    ensures ceiling > 0 ==> (random * (ceiling as real)).Floor < ceiling
    ensures ceiling == 0 ==> (random * (ceiling as real)).Floor == 0
  {
    if ceiling > 0 { assert random * (ceiling as real) < 1.0 * (ceiling as real); }
  }

  // ---- The interleaving model --------------------------------------------------------------------------------

  datatype Config = Config(breaker: B.Settings, retry: RetryPolicy, paced: bool, adaptive: bool)
  {
    ghost predicate Valid() {
      breaker.Valid() && breaker.successThreshold >= 1 && retry.maxAttempts >= 1
    }
  }

  /** What one execution does that others can notice. */
  datatype Event = Spent | SlotGranted | RequestEvent | Fetch | Recorded(success: bool) | Slept(ms: nat)

  /** Where an execution is suspended. */
  datatype Phase = AwaitingSlot(attempt: nat) | Fetching(attempt: nat) | Sleeping(attempt: nat) | Done

  /**
   * One call. `trial` names the half-open episode whose slot the execution took and has not yet given back; `cost` is
   * the quota its request spends per attempt; `admitted` says that neither kill switch nor breaker turned it away.
   */
  datatype Exec = Exec(phase: Phase, trace: seq<Event>, trial: Option<nat>, cost: nat, admitted: bool)

  /**
   * What the executions share. `episode` counts breaker state changes. `freed` counts, in the present half-open
   * episode, the slots given back by successes of calls that held none, less those whose holders then found no slot
   * left to give back. The logs are everything the breaker and the quota were asked, and when a request left for the
   * network.
   */
  datatype Shared = Shared(now: int, breaker: B.Breaker, quota: Option<Q.Quota>, episode: nat, freed: int,
                           breakerLog: seq<B.Event>, quotaLog: seq<Q.Op>, fetchLog: seq<int>)

  datatype Sys = Sys(shared: Shared, execs: seq<Exec>)

  datatype Step =
    | Tick(ms: nat)
    | Status                                                  // a reader asks for the breaker's state
    | ManualReset                                             // an operator closes the circuit
    | Begin(enabled: bool, cost: nat)                         // call to #execute up to its first await
    | Slot(i: nat, granted: bool)                             // the pacer settles its promise
    | Headers(i: nat, policy: Option<Q.Policy>)               // response headers arrive
    | Settle(i: nat, outcome: Outcome, random: real)          // the attempt settles
    | WakeUp(i: nat)                                          // the retry sleep ends

  /** No execution takes part in the step. */
  predicate Quiet(step: Step) {
    step.Tick? || step.Status? || step.ManualReset?
  }

  predicate Enabled(s: Sys, step: Step) {
    match step
    case Slot(i, _) => i < |s.execs| && s.execs[i].phase.AwaitingSlot?
    case Headers(i, _) => i < |s.execs| && s.execs[i].phase.Fetching?
    case Settle(i, _, random) => i < |s.execs| && s.execs[i].phase.Fetching? && s.execs[i].phase.attempt >= 1
                                 && 0.0 <= random < 1.0
    case WakeUp(i) => i < |s.execs| && s.execs[i].phase.Sleeping?
    case _ => true
  }

  function Asked(c: Config, h: Shared, e: B.Event): Shared {
    var b := B.Apply(c.breaker, h.breaker, e);
    var changed := b.state != h.breaker.state || b.opens != h.breaker.opens;
    h.(breaker := b, breakerLog := h.breakerLog + [e],
       episode := if changed then h.episode + 1 else h.episode, freed := if changed then 0 else h.freed)
  }

  function AskedQuota(h: Shared, op: Q.Op): Shared {
    if h.quota.None? then h
    else h.(quota := Some(Q.Apply(h.quota.value, op)), quotaLog := h.quotaLog + [op])
  }

  /** How a success moves the count of freed slots: a stranger frees one if any is taken, a holder may find none. */
  function Shift(holder: bool, taken: nat): int {
    if holder then (if taken == 0 then -1 else 0) else (if taken == 0 then 0 else 1)
  }

  /** The execution tells the breaker how an attempt went. */
  function WithRecord(c: Config, h: Shared, e: Exec, success: bool): Shared {
    var g := Asked(c, h, if success then B.Succeed(h.now) else B.Fail(h.now));
    if success && h.breaker.state.HalfOpen? && g.episode == h.episode
    then g.(freed := h.freed + Shift(e.trial == Some(h.episode), h.breaker.halfOpenInFlight))
    else g
  }

  predicate HasBudget(h: Shared, cost: nat) {
    h.quota.Some? ==> Q.Fits(h.quota.value, h.now, cost)
  }

  /** A recording execution gives back whatever slot it held. */
  function Record(e: Exec, success: bool): Exec {
    e.(trace := e.trace + [Recorded(success)], trial := None)
  }

  function Moved(e: Exec, phase: Phase, events: seq<Event>): Exec {
    e.(phase := phase, trace := e.trace + events)
  }

  function Ended(e: Exec): Exec {
    e.(phase := Done)
  }

  /** How the breaker hears of an outcome. */
  predicate Counts(outcome: Outcome) {
    outcome.Failure? && CountsAgainstProvider(outcome.kind)
  }

  /**
   * The pause before the next attempt. There is none exactly if the failure is of a kind that is not retried, if the
   * attempt was the last, or if the provider asks for a longer wait than the client will sit out.
   */
  function WaitAfter(c: Config, attempt: nat, outcome: Outcome, random: real): (wait: Option<nat>)
    requires attempt >= 1 && 0.0 <= random < 1.0
    ensures wait.Some? <==>
            && outcome.Failure? && outcome.kind in {Timeout, Network, RateLimited, ServerError}
            && attempt != c.retry.maxAttempts
            && (outcome.retryAfterMs.Some? ==> outcome.retryAfterMs.value <= c.retry.maxRetryAfterMs)
    ensures wait.Some? ==> Counts(outcome) && wait.value <= LongestWait(c.retry)
    ensures wait.Some? && outcome.retryAfterMs.Some? ==> wait.value >= outcome.retryAfterMs.value
  {
    if outcome.Answer? || !Retryable(outcome.kind) || attempt == c.retry.maxAttempts then None
    else BackoffMs(c.retry, attempt, outcome.retryAfterMs, random)
  }

  /** Ends an execution or lets it sleep. */
  function Rested(e: Exec, attempt: nat, wait: Option<nat>): Exec {
    if wait.None? then Ended(e) else Moved(e, Sleeping(attempt), [Slept(wait.value)])
  }

  /** What the rest of the loop body does with the outcome of an attempt. */
  function SettleExec(c: Config, e: Exec, outcome: Outcome, random: real): Exec
    requires e.phase.Fetching? && e.phase.attempt >= 1 && 0.0 <= random < 1.0
  {
    Rested(Record(e, !Counts(outcome)), e.phase.attempt, WaitAfter(c, e.phase.attempt, outcome, random))
  }

  function Sent(h: Shared): Shared {
    h.(fetchLog := h.fetchLog + [h.now])
  }

  /** The top of the loop body: quota gate, then the pacer or straight to the network. */
  function StartShared(c: Config, h: Shared, e: Exec): Shared {
    var g := AskedQuota(h, Q.Consume(h.now, e.cost));
    if !HasBudget(h, e.cost) then WithRecord(c, g, e, true)
    else if c.paced then g else Sent(g)
  }

  function StartExec(c: Config, h: Shared, e: Exec, attempt: nat): Exec {
    if !HasBudget(h, e.cost) then Ended(Record(e, true))
    else if c.paced then Moved(e, AwaitingSlot(attempt), [Spent])
    else Moved(e, Fetching(attempt), [Spent, RequestEvent, Fetch])
  }

  /** An execution the breaker has just let in. */
  function Admitted(h: Shared, cost: nat): Exec {
    Exec(Done, [], if h.breaker.state.HalfOpen? then Some(h.episode) else None, cost, true)
  }

  /** One that the kill switch or the breaker turned away. */
  function TurnedAway(cost: nat): Exec {
    Exec(Done, [], None, cost, false)
  }

  function SharedAfter(c: Config, s: Sys, step: Step): Shared
    requires Enabled(s, step)
  {
    var h := s.shared;
    match step
    case Tick(ms) => h.(now := h.now + ms)
    case Status => Asked(c, h, B.Read(h.now))
    case ManualReset => Asked(c, h, B.Reset(h.now))
    case Begin(enabled, cost) =>
      if !enabled then h
      else
        var g := Asked(c, h, B.Acquire(h.now));
        if B.Admits(c.breaker, h.breaker, h.now) then StartShared(c, g, Admitted(g, cost)) else g
    case Slot(i, granted) => if granted then Sent(h) else WithRecord(c, h, s.execs[i], true)
    case Headers(i, policy) =>
      if c.adaptive && policy.Some? then AskedQuota(h, Q.Retune(h.now, policy.value)) else h
    case Settle(i, outcome, _) => WithRecord(c, h, s.execs[i], !Counts(outcome))
    case WakeUp(i) => StartShared(c, h, s.execs[i])
  }

  /** The execution a step creates or moves. */
  function ExecAfter(c: Config, s: Sys, step: Step): Exec
    requires Enabled(s, step) && !Quiet(step)
  {
    var h := s.shared;
    match step
    case Begin(enabled, cost) =>
      if !enabled || !B.Admits(c.breaker, h.breaker, h.now) then TurnedAway(cost)
      else
        var g := Asked(c, h, B.Acquire(h.now));
        StartExec(c, g, Admitted(g, cost), 1)
    case Slot(i, granted) =>
      if granted then Moved(s.execs[i], Fetching(s.execs[i].phase.attempt), [SlotGranted, RequestEvent, Fetch])
      else Ended(Record(s.execs[i], true))
    case Headers(i, _) => s.execs[i]
    case Settle(i, outcome, random) =>
      SettleExec(c, s.execs[i], outcome, random)
    case WakeUp(i) => StartExec(c, h, s.execs[i], s.execs[i].phase.attempt + 1)
  }

  function Next(c: Config, s: Sys, step: Step): Sys
    requires Enabled(s, step)
  {
    var h := SharedAfter(c, s, step);
    match step
    case Tick(_) => Sys(h, s.execs)
    case Status => Sys(h, s.execs)
    case ManualReset => Sys(h, s.execs)
    case Begin(_, _) => Sys(h, s.execs + [ExecAfter(c, s, step)])
    case _ => Sys(h, s.execs[step.i := ExecAfter(c, s, step)])
  }

  ghost predicate Initial(s: Sys) {
    && s.execs == [] && s.shared == Shared(s.shared.now, B.INITIAL, s.shared.quota, 0, 0, [], [], [])
    && (s.shared.quota.Some? ==> Q.Fresh(s.shared.quota.value))
  }

  ghost predicate IsRun(c: Config, states: seq<Sys>, steps: seq<Step>) {
    && |states| == |steps| + 1
    && Initial(states[0])
    && forall n :: 0 <= n < |steps| ==> Enabled(states[n], steps[n]) && states[n + 1] == Next(c, states[n], steps[n])
  }

  // ---- Composition: the shared parts only ever do what their own models allow --------------------------------

  ghost predicate BreakerExplained(c: Config, h: Shared) {
    && h.breaker == B.Run(c.breaker, B.INITIAL, h.breakerLog)
    && (forall i :: 0 <= i < |h.breakerLog| ==> h.breakerLog[i].now <= h.now)
    && (forall i, j :: 0 <= i <= j < |h.breakerLog| ==> h.breakerLog[i].now <= h.breakerLog[j].now)
  }

  ghost predicate QuotaExplained(first: Option<Q.Quota>, h: Shared) {
    && (h.quota.Some? <==> first.Some?)
    && (h.quota.Some? ==> h.quota.value == Q.Run(first.value, h.quotaLog))
    && (forall i :: 0 <= i < |h.quotaLog| ==> h.quotaLog[i].now <= h.now)
    && Q.Chronological(h.quotaLog)
  }

  lemma AskedExplained(c: Config, h: Shared, e: B.Event)
    requires BreakerExplained(c, h) && e.now == h.now
    ensures BreakerExplained(c, Asked(c, h, e))
  {
    assert (h.breakerLog + [e])[..|h.breakerLog|] == h.breakerLog;
  }

  lemma AskedQuotaExplained(first: Option<Q.Quota>, h: Shared, op: Q.Op)
    requires QuotaExplained(first, h) && op.now == h.now
    ensures QuotaExplained(first, AskedQuota(h, op))
  {
    if h.quota.Some? {
      Q.OneMore(first.value, h.quotaLog, op);
      LaterOp(h.quotaLog, op);
      assert AskedQuota(h, op).quota.value == Q.Run(first.value, h.quotaLog + [op]);
    }
  }

  lemma LaterOp(log: seq<Q.Op>, op: Q.Op)
    requires Q.Chronological(log) && forall i :: 0 <= i < |log| ==> log[i].now <= op.now
    ensures Q.Chronological(log + [op]) && forall i :: 0 <= i < |log + [op]| ==> (log + [op])[i].now <= op.now
  {
  }

  lemma RecordExplained(c: Config, h: Shared, e: Exec, success: bool)
    requires BreakerExplained(c, h)
    ensures BreakerExplained(c, WithRecord(c, h, e, success))
  {
    AskedExplained(c, h, if success then B.Succeed(h.now) else B.Fail(h.now));
  }

  lemma StartExplained(c: Config, h: Shared, e: Exec)
    requires BreakerExplained(c, h)
    ensures BreakerExplained(c, StartShared(c, h, e))
  {
    var g := AskedQuota(h, Q.Consume(h.now, e.cost));
    assert BreakerExplained(c, g);
    RecordExplained(c, g, e, true);
  }

  lemma BreakerStepExplained(c: Config, s: Sys, step: Step)
    requires BreakerExplained(c, s.shared) && Enabled(s, step)
    ensures BreakerExplained(c, SharedAfter(c, s, step))
  {
    var h := s.shared;
    match step
    case Tick(_) =>
    case Status => AskedExplained(c, h, B.Read(h.now));
    case ManualReset => AskedExplained(c, h, B.Reset(h.now));
    case Begin(_, cost) =>
      var g := Asked(c, h, B.Acquire(h.now));
      AskedExplained(c, h, B.Acquire(h.now));
      StartExplained(c, g, Admitted(g, cost));
    case Slot(i, _) => RecordExplained(c, h, s.execs[i], true);
    case Headers(_, _) =>
    case Settle(i, outcome, _) => RecordExplained(c, h, s.execs[i], !Counts(outcome));
    case WakeUp(i) => StartExplained(c, h, s.execs[i]);
  }

  /** Only the quota's own fields matter to what is known of the quota. */
  lemma SameQuotaExplained(first: Option<Q.Quota>, h: Shared, g: Shared)
    requires QuotaExplained(first, h) && g.now >= h.now && g.quota == h.quota && g.quotaLog == h.quotaLog
    ensures QuotaExplained(first, g)
  {
  }

  lemma StartQuotaExplained(c: Config, first: Option<Q.Quota>, h: Shared, e: Exec)
    requires QuotaExplained(first, h)
    ensures QuotaExplained(first, StartShared(c, h, e))
  {
    var g := AskedQuota(h, Q.Consume(h.now, e.cost));
    AskedQuotaExplained(first, h, Q.Consume(h.now, e.cost));
    SameQuotaExplained(first, g, StartShared(c, h, e));
  }

  lemma QuotaStepExplained(c: Config, first: Option<Q.Quota>, s: Sys, step: Step)
    requires QuotaExplained(first, s.shared) && Enabled(s, step)
    ensures QuotaExplained(first, SharedAfter(c, s, step))
  {
    var h := s.shared;
    match step
    case Begin(_, cost) =>
      var g := Asked(c, h, B.Acquire(h.now));
      SameQuotaExplained(first, h, g);
      StartQuotaExplained(c, first, g, Admitted(g, cost));
    case WakeUp(i) => StartQuotaExplained(c, first, h, s.execs[i]);
    case Headers(_, policy) =>
      if policy.Some? { AskedQuotaExplained(first, h, Q.Retune(h.now, policy.value)); }
    case _ => SameQuotaExplained(first, h, SharedAfter(c, s, step));
  }

  /** Under any interleaving breaker and quota are in a state their own chronological runs reach. */
  lemma {:induction false} SharedPartsRun(c: Config, states: seq<Sys>, steps: seq<Step>, n: nat)
    requires IsRun(c, states, steps) && n < |states|
    ensures BreakerExplained(c, states[n].shared) && QuotaExplained(states[0].shared.quota, states[n].shared)
  {
    if n > 0 {
      SharedPartsRun(c, states, steps, n - 1);
      BreakerStepExplained(c, states[n - 1], steps[n - 1]);
      QuotaStepExplained(c, states[0].shared.quota, states[n - 1], steps[n - 1]);
    }
  }

  // ---- What the breaker hears --------------------------------------------------------------------------------

  /**
   * An attempt that settles tells the breaker of a failure, and notes one in the trace, iff there was no response or
   * one with an unaccepted status that blames the provider; any other answer, a 404 say, is told as a success.
   */
  lemma SettleTellsBreaker(c: Config, s: Sys, i: nat, reply: Reply, accepted: set<int>, random: real)
    requires Enabled(s, Settle(i, Classify(reply, accepted), random))
    ensures var t := Next(c, s, Settle(i, Classify(reply, accepted), random));
            var blamed := !reply.Response? || (reply.status !in accepted && (reply.status == 408 || reply.status == 429
                                                                             || reply.status >= 500));
            && t.shared.breakerLog
               == s.shared.breakerLog + [if blamed then B.Fail(s.shared.now) else B.Succeed(s.shared.now)]
            && s.execs[i].trace + [Recorded(!blamed)] <= t.execs[i].trace
            && t.execs[i].trial.None?
  {
  }

  /** The exchange blames the provider. */
  predicate Blames(reply: Reply, accepted: set<int>) {
    !reply.Response?
    || (reply.status !in accepted && (reply.status == 408 || reply.status == 429 || reply.status >= 500))
  }

  /** The exchange behind each step that settles an attempt. */
  datatype Exchange = Exchange(reply: Reply, accepted: set<int>)

  /** The outcomes of the run are those of the given exchanges, step by step. */
  ghost predicate Exchanged(steps: seq<Step>, exchanges: seq<Exchange>) {
    && |exchanges| == |steps|
    && forall n :: 0 <= n < |steps| && steps[n].Settle? ==>
         steps[n].outcome == Classify(exchanges[n].reply, exchanges[n].accepted)
  }

  /** When exchanges that blame the provider came back, up to state `n`. */
  function BlamedAt(states: seq<Sys>, steps: seq<Step>, exchanges: seq<Exchange>, n: nat): seq<int>
    requires n <= |steps| == |exchanges| && n <= |states|
  {
    if n == 0 then []
    else
      var before := BlamedAt(states, steps, exchanges, n - 1);
      if steps[n - 1].Settle? && Blames(exchanges[n - 1].reply, exchanges[n - 1].accepted)
      then before + [states[n - 1].shared.now] else before
  }

  /** The failures a log of breaker events tells of. */
  function Failures(log: seq<B.Event>): seq<int> {
    if log == [] then []
    else Failures(log[..|log| - 1]) + if log[|log| - 1].Fail? then [log[|log| - 1].now] else []
  }

  lemma FailuresOne(log: seq<B.Event>, e: B.Event)
    ensures Failures(log + [e]) == Failures(log) + if e.Fail? then [e.now] else []
  {
    assert (log + [e])[..|log|] == log;
  }

  lemma StartTells(c: Config, h: Shared, e: Exec)
    ensures Failures(StartShared(c, h, e).breakerLog) == Failures(h.breakerLog)
  {
    FailuresOne(h.breakerLog, B.Succeed(h.now));
  }

  lemma StepTells(c: Config, s: Sys, step: Step, x: Exchange)
    requires Enabled(s, step) && (step.Settle? ==> step.outcome == Classify(x.reply, x.accepted))
    ensures Failures(Next(c, s, step).shared.breakerLog)
            == Failures(s.shared.breakerLog)
               + if step.Settle? && Blames(x.reply, x.accepted) then [s.shared.now] else []
  {
    var h := s.shared;
    match step
    case Tick(_) =>
    case Status => FailuresOne(h.breakerLog, B.Read(h.now));
    case ManualReset => FailuresOne(h.breakerLog, B.Event.Reset(h.now));
    case Begin(_, cost) =>
      var g := Asked(c, h, B.Acquire(h.now));
      FailuresOne(h.breakerLog, B.Acquire(h.now));
      StartTells(c, g, Admitted(g, cost));
    case Slot(_, _) => FailuresOne(h.breakerLog, B.Succeed(h.now));
    case Headers(_, _) =>
    case Settle(i, outcome, random) =>
      SettleTellsBreaker(c, s, i, x.reply, x.accepted, random);
      FailuresOne(h.breakerLog, if Blames(x.reply, x.accepted) then B.Fail(h.now) else B.Succeed(h.now));
    case WakeUp(i) => StartTells(c, h, s.execs[i]);
  }

  /** In every run the failures the breaker has heard of are the exchanges that blame the provider, in order. */
  lemma {:induction false} BreakerHearsBlame(c: Config, states: seq<Sys>, steps: seq<Step>, exchanges: seq<Exchange>,
                                             n: nat)
    requires IsRun(c, states, steps) && Exchanged(steps, exchanges) && n < |states|
    ensures Failures(states[n].shared.breakerLog) == BlamedAt(states, steps, exchanges, n)
  {
    if n > 0 {
      BreakerHearsBlame(c, states, steps, exchanges, n - 1);
      StepTells(c, states[n - 1], steps[n - 1], exchanges[n - 1]);
    }
  }

  lemma {:induction false} NothingBlamed(states: seq<Sys>, steps: seq<Step>, exchanges: seq<Exchange>, n: nat)
    requires n <= |steps| == |exchanges| && n <= |states|
    requires forall m :: 0 <= m < n && steps[m].Settle? ==> !Blames(exchanges[m].reply, exchanges[m].accepted)
    ensures BlamedAt(states, steps, exchanges, n) == []
  {
    if n > 0 { NothingBlamed(states, steps, exchanges, n - 1); }
  }

  lemma {:induction false} StaysClosed(s: B.Settings, log: seq<B.Event>)
    requires s.Valid() && Failures(log) == []
    ensures B.Run(s, B.INITIAL, log).state.Closed? && B.Run(s, B.INITIAL, log).consecutiveFailures == 0
  {
    if log != [] { StaysClosed(s, log[..|log| - 1]); }
  }

  /** However many 4xx answers a catalogue gap produces, a provider that is never to blame never opens the circuit. */
  lemma BlamelessStaysClosed(c: Config, states: seq<Sys>, steps: seq<Step>, exchanges: seq<Exchange>, n: nat)
    requires c.Valid() && IsRun(c, states, steps) && Exchanged(steps, exchanges) && n < |states|
    requires forall m :: 0 <= m < n && steps[m].Settle? && exchanges[m].reply.Response? ==>
               var status := exchanges[m].reply.status;
               status in exchanges[m].accepted || (status != 408 && status != 429 && status < 500)
    requires forall m :: 0 <= m < n && steps[m].Settle? ==> exchanges[m].reply.Response?
    ensures states[n].shared.breaker.state.Closed?
  {
    BreakerHearsBlame(c, states, steps, exchanges, n);
    NothingBlamed(states, steps, exchanges, n);
    SharedPartsRun(c, states, steps, n);
    StaysClosed(c.breaker, states[n].shared.breakerLog);
  }

  /** How often a trace notes the given result, and how often a log of breaker events tells of it. */
  function Noted(t: seq<Event>, success: bool): nat {
    if t == [] then 0 else Noted(t[..|t| - 1], success) + if t[|t| - 1] == Recorded(success) then 1 else 0
  }

  function Told(log: seq<B.Event>, success: bool): nat {
    if log == [] then 0
    else
      var e := log[|log| - 1];
      Told(log[..|log| - 1], success) + if (if success then e.Succeed? else e.Fail?) then 1 else 0
  }

  function NotedByAll(execs: seq<Exec>, success: bool): nat {
    if execs == [] then 0
    else NotedByAll(execs[..|execs| - 1], success) + Noted(execs[|execs| - 1].trace, success)
  }

  lemma NotedOne(t: seq<Event>, e: Event, success: bool)
    ensures Noted(t + [e], success) == Noted(t, success) + if e == Recorded(success) then 1 else 0
  {
    assert (t + [e])[..|t|] == t;
  }

  lemma ToldOne(log: seq<B.Event>, e: B.Event, success: bool)
    ensures Told(log + [e], success)
            == Told(log, success) + if (if success then e.Succeed? else e.Fail?) then 1 else 0
  {
    assert (log + [e])[..|log|] == log;
  }

  lemma {:induction false} NotedUpdate(execs: seq<Exec>, i: nat, e: Exec, success: bool)
    requires i < |execs|
    ensures NotedByAll(execs[i := e], success)
            == NotedByAll(execs, success) - Noted(execs[i].trace, success) + Noted(e.trace, success)
  {
    var before := execs[..|execs| - 1];
    if i < |execs| - 1 {
      NotedUpdate(before, i, e, success);
      assert execs[i := e][..|execs| - 1] == before[i := e];
    } else {
      assert execs[i := e][..|execs| - 1] == before;
    }
  }

  lemma ThreeUnnoted(t: seq<Event>, a: Event, b: Event, d: Event, success: bool)
    requires !a.Recorded? && !b.Recorded? && !d.Recorded?
    ensures Noted(t + [a, b, d], success) == Noted(t, success)
  {
    NotedOne(t, a, success);
    NotedOne(t + [a], b, success);
    NotedOne(t + [a] + [b], d, success);
    assert t + [a, b, d] == t + [a] + [b] + [d];
  }

  /** What the head of an attempt notes is what it tells. */
  lemma StartNotes(c: Config, h: Shared, e: Exec, attempt: nat, success: bool)
    ensures Noted(StartExec(c, h, e, attempt).trace, success) - Noted(e.trace, success)
            == Told(StartShared(c, h, e).breakerLog, success) - Told(h.breakerLog, success)
  {
    if !HasBudget(h, e.cost) {
      NotedOne(e.trace, Recorded(true), success);
      ToldOne(h.breakerLog, B.Succeed(h.now), success);
    } else if c.paced {
      NotedOne(e.trace, Spent, success);
    } else {
      ThreeUnnoted(e.trace, Spent, RequestEvent, Fetch, success);
    }
  }

  lemma SettleNotes(c: Config, e: Exec, outcome: Outcome, random: real, success: bool)
    requires e.phase.Fetching? && e.phase.attempt >= 1 && 0.0 <= random < 1.0
    ensures Noted(SettleExec(c, e, outcome, random).trace, success)
            == Noted(e.trace, success) + if success == !Counts(outcome) then 1 else 0
  {
    var noted := e.trace + [Recorded(!Counts(outcome))];
    NotedOne(e.trace, Recorded(!Counts(outcome)), success);
    var wait := WaitAfter(c, e.phase.attempt, outcome, random);
    if wait.Some? { NotedOne(noted, Slept(wait.value), success); }
  }

  /** What a step tells the breaker. */
  function TellsMore(c: Config, s: Sys, step: Step, success: bool): int
    requires Enabled(s, step)
  {
    Told(SharedAfter(c, s, step).breakerLog, success) - Told(s.shared.breakerLog, success)
  }

  lemma AdmittedNotes(c: Config, g: Shared, cost: nat, success: bool)
    ensures Noted(StartExec(c, g, Admitted(g, cost), 1).trace, success)
            == Told(StartShared(c, g, Admitted(g, cost)).breakerLog, success) - Told(g.breakerLog, success)
  {
    StartNotes(c, g, Admitted(g, cost), 1, success);
  }

  lemma BeginNotes(c: Config, s: Sys, enabled: bool, cost: nat, success: bool)
    ensures TellsMore(c, s, Begin(enabled, cost), success)
            == Noted(ExecAfter(c, s, Begin(enabled, cost)).trace, success)
  {
    var h := s.shared;
    if enabled {
      var g := Asked(c, h, B.Acquire(h.now));
      ToldOne(h.breakerLog, B.Acquire(h.now), success);
      assert Told(g.breakerLog, success) == Told(h.breakerLog, success);
      if B.Admits(c.breaker, h.breaker, h.now) { AdmittedNotes(c, g, cost, success); }
    }
  }

  lemma SlotNotes(c: Config, s: Sys, i: nat, granted: bool, success: bool)
    requires Enabled(s, Slot(i, granted))
    ensures TellsMore(c, s, Slot(i, granted), success)
            == Noted(ExecAfter(c, s, Slot(i, granted)).trace, success) - Noted(s.execs[i].trace, success)
  {
    if granted {
      ThreeUnnoted(s.execs[i].trace, SlotGranted, RequestEvent, Fetch, success);
    } else {
      NotedOne(s.execs[i].trace, Recorded(true), success);
      ToldOne(s.shared.breakerLog, B.Succeed(s.shared.now), success);
    }
  }

  lemma MoveNotes(c: Config, s: Sys, step: Step, success: bool)
    requires Enabled(s, step) && !Quiet(step) && !step.Begin?
    ensures TellsMore(c, s, step, success)
            == Noted(ExecAfter(c, s, step).trace, success) - Noted(s.execs[step.i].trace, success)
  {
    var h, e := s.shared, s.execs[step.i];
    match step
    case Slot(i, granted) => SlotNotes(c, s, i, granted, success);
    case Headers(_, _) =>
    case Settle(_, outcome, random) =>
      SettleNotes(c, e, outcome, random, success);
      ToldOne(h.breakerLog, if Counts(outcome) then B.Fail(h.now) else B.Succeed(h.now), success);
    case WakeUp(_) => StartNotes(c, h, e, e.phase.attempt + 1, success);
  }

  lemma StepNotes(c: Config, s: Sys, step: Step, success: bool)
    requires Enabled(s, step)
    ensures TellsMore(c, s, step, success)
            == NotedByAll(Next(c, s, step).execs, success) - NotedByAll(s.execs, success)
  {
    match step
    case Tick(_) =>
    case Status => ToldOne(s.shared.breakerLog, B.Read(s.shared.now), success);
    case ManualReset => ToldOne(s.shared.breakerLog, B.Event.Reset(s.shared.now), success);
    case Begin(enabled, cost) =>
      BeginNotes(c, s, enabled, cost, success);
      assert (s.execs + [ExecAfter(c, s, step)])[..|s.execs|] == s.execs;
    case _ =>
      MoveNotes(c, s, step, success);
      NotedUpdate(s.execs, step.i, ExecAfter(c, s, step), success);
  }

  /** Every success and every failure the breaker hears of is noted in exactly one trace. */
  lemma {:induction false} TracesTell(c: Config, states: seq<Sys>, steps: seq<Step>, n: nat, success: bool)
    requires IsRun(c, states, steps) && n < |states|
    ensures Told(states[n].shared.breakerLog, success) == NotedByAll(states[n].execs, success)
  {
    if n > 0 {
      TracesTell(c, states, steps, n - 1, success);
      StepNotes(c, states[n - 1], steps[n - 1], success);
    }
  }

  // ---- The breaker never wedges ------------------------------------------------------------------------------

  /** Executions that hold a slot of the given episode. */
  function Holders(execs: seq<Exec>, episode: nat): nat {
    if execs == [] then 0
    else Holders(execs[..|execs| - 1], episode) + if execs[|execs| - 1].trial == Some(episode) then 1 else 0
  }

  lemma {:induction false} HoldersUpdate(execs: seq<Exec>, i: nat, e: Exec, episode: nat)
    requires i < |execs|
    ensures Holders(execs[i := e], episode)
            == Holders(execs, episode) - (if execs[i].trial == Some(episode) then 1 else 0)
               + (if e.trial == Some(episode) then 1 else 0)
  {
    var before := execs[..|execs| - 1];
    if i < |execs| - 1 {
      HoldersUpdate(before, i, e, episode);
      assert execs[i := e][..|execs| - 1] == before[i := e];
    } else {
      assert execs[i := e][..|execs| - 1] == before;
    }
  }

  lemma {:induction false} NoHolders(execs: seq<Exec>, episode: nat)
    requires forall i :: 0 <= i < |execs| ==> execs[i].trial != Some(episode)
    ensures Holders(execs, episode) == 0
  {
    if execs != [] { NoHolders(execs[..|execs| - 1], episode); }
  }

  lemma HoldersAppend(execs: seq<Exec>, e: Exec, episode: nat)
    ensures Holders(execs + [e], episode) == Holders(execs, episode) + if e.trial == Some(episode) then 1 else 0
  {
    assert (execs + [e])[..|execs|] == execs;
  }

  ghost predicate TrialsArePast(s: Sys) {
    forall i :: 0 <= i < |s.execs| && s.execs[i].trial.Some? ==> s.execs[i].trial.value <= s.shared.episode
  }

  /**
   * In half-open every slot counted as taken belongs to an execution that will still record, and those executions
   * exceed the count by exactly the freed slots; outside half-open nothing is held.
   */
  ghost predicate SlotsBacked(s: Sys) {
    var b, held := s.shared.breaker, Holders(s.execs, s.shared.episode);
    TrialsArePast(s)
    && if b.state.HalfOpen?
       then held == b.halfOpenInFlight + s.shared.freed && 0 <= s.shared.freed <= b.halfOpenSuccesses
       else held == 0 && b.halfOpenInFlight == 0 && s.shared.freed == 0
  }

  /** An execution that records gives back at most the slot it held. */
  lemma RecordKeepsBacking(c: Config, s: Sys, i: nat, e: Exec, success: bool)
    requires c.Valid() && B.WellFormed(c.breaker, s.shared.breaker) && SlotsBacked(s)
    requires i < |s.execs| && e.trial.None?
    ensures SlotsBacked(Sys(WithRecord(c, s.shared, s.execs[i], success), s.execs[i := e]))
  {
    var h := WithRecord(c, s.shared, s.execs[i], success);
    HoldersUpdate(s.execs, i, e, s.shared.episode);
    if s.execs[i].trial == Some(s.shared.episode) { HolderCounts(s.execs, i, s.shared.episode); }
    if h.episode != s.shared.episode { NoHolders(s.execs[i := e], h.episode); }
  }

  lemma {:induction false} HolderCounts(execs: seq<Exec>, i: nat, episode: nat)
    requires i < |execs| && execs[i].trial == Some(episode)
    ensures Holders(execs, episode) >= 1
  {
    if i < |execs| - 1 { HolderCounts(execs[..|execs| - 1], i, episode); }
  }

  lemma MoveKeepsBacking(s: Sys, i: nat, e: Exec)
    requires SlotsBacked(s) && i < |s.execs| && e.trial == s.execs[i].trial
    ensures SlotsBacked(Sys(s.shared, s.execs[i := e]))
  {
    HoldersUpdate(s.execs, i, e, s.shared.episode);
  }

  lemma ReadKeepsBacking(c: Config, s: Sys, e: B.Event)
    requires B.WellFormed(c.breaker, s.shared.breaker) && SlotsBacked(s) && (e.Read? || e.Reset?)
    ensures SlotsBacked(Sys(Asked(c, s.shared, e), s.execs))
  {
    var h := Asked(c, s.shared, e);
    if h.episode != s.shared.episode { NoHolders(s.execs, h.episode); }
  }

  /** Admission takes a slot and adds an execution that backs it; a refusal adds one that holds nothing. */
  lemma AcquireKeepsBacking(c: Config, s: Sys, cost: nat)
    requires B.WellFormed(c.breaker, s.shared.breaker) && SlotsBacked(s)
    ensures var h := Asked(c, s.shared, B.Acquire(s.shared.now));
            SlotsBacked(Sys(h, s.execs + [if B.Admits(c.breaker, s.shared.breaker, s.shared.now) then Admitted(h, cost)
                                          else TurnedAway(cost)]))
  {
    var h := Asked(c, s.shared, B.Acquire(s.shared.now));
    if h.episode != s.shared.episode { NoHolders(s.execs, h.episode); }
    HoldersAppend(s.execs, Admitted(h, cost), h.episode);
    HoldersAppend(s.execs, TurnedAway(cost), h.episode);
  }

  lemma StartKeepsBacking(c: Config, s: Sys, i: nat, attempt: nat)
    requires c.Valid() && B.WellFormed(c.breaker, s.shared.breaker) && SlotsBacked(s) && i < |s.execs|
    ensures SlotsBacked(Sys(StartShared(c, s.shared, s.execs[i]),
                            s.execs[i := StartExec(c, s.shared, s.execs[i], attempt)]))
  {
    var e := StartExec(c, s.shared, s.execs[i], attempt);
    var g := Sys(AskedQuota(s.shared, Q.Consume(s.shared.now, s.execs[i].cost)), s.execs);
    assert SlotsBacked(g) && SlotsBacked(Sys(Sent(g.shared), g.execs));
    if HasBudget(s.shared, s.execs[i].cost) {
      MoveKeepsBacking(if c.paced then g else Sys(Sent(g.shared), g.execs), i, e);
    } else {
      RecordKeepsBacking(c, g, i, e, true);
    }
  }

  lemma BeginKeepsBacking(c: Config, s: Sys, cost: nat)
    requires c.Valid() && B.WellFormed(c.breaker, s.shared.breaker) && SlotsBacked(s)
    ensures SlotsBacked(Next(c, s, Begin(true, cost)))
  {
    AcquireKeepsBacking(c, s, cost);
    var h := s.shared;
    if B.Admits(c.breaker, h.breaker, h.now) {
      var g := Asked(c, h, B.Acquire(h.now));
      var t := Sys(g, s.execs + [Admitted(g, cost)]);
      AcquireKeepsForm(c, h.breaker, h.now);
      StartKeepsBacking(c, t, |s.execs|, 1);
      var e := ExecAfter(c, s, Begin(true, cost));
      assert t.execs[|s.execs| := e] == s.execs + [e];
    }
  }

  lemma AcquireKeepsForm(c: Config, b: B.Breaker, now: int)
    requires c.breaker.Valid() && B.WellFormed(c.breaker, b)
    ensures B.WellFormed(c.breaker, B.Apply(c.breaker, b, B.Acquire(now)))
  {
    B.ReachableIsWellFormed(c.breaker, b, [B.Acquire(now)]);
    assert [B.Acquire(now)][..0] == [];
  }

  lemma SettleKeepsBacking(c: Config, s: Sys, step: Step)
    requires c.Valid() && B.WellFormed(c.breaker, s.shared.breaker) && SlotsBacked(s) && Enabled(s, step)
    requires step.Settle?
    ensures SlotsBacked(Next(c, s, step))
  {
    var e := SettleExec(c, s.execs[step.i], step.outcome, step.random);
    RecordKeepsBacking(c, s, step.i, e, !Counts(step.outcome));
  }

  lemma SlotKeepsBacking(c: Config, s: Sys, step: Step)
    requires c.Valid() && B.WellFormed(c.breaker, s.shared.breaker) && SlotsBacked(s) && Enabled(s, step)
    requires step.Slot?
    ensures SlotsBacked(Next(c, s, step))
  {
    var e := ExecAfter(c, s, step);
    if step.granted {
      MoveKeepsBacking(Sys(Sent(s.shared), s.execs), step.i, e);
    } else {
      RecordKeepsBacking(c, s, step.i, e, true);
    }
  }

  lemma HeadersKeepBacking(c: Config, s: Sys, step: Step)
    requires SlotsBacked(s) && Enabled(s, step) && step.Headers?
    ensures SlotsBacked(Next(c, s, step))
  {
    MoveKeepsBacking(s, step.i, s.execs[step.i]);
  }

  lemma WakeUpKeepsBacking(c: Config, s: Sys, step: Step)
    requires c.Valid() && B.WellFormed(c.breaker, s.shared.breaker) && SlotsBacked(s) && Enabled(s, step)
    requires step.WakeUp?
    ensures SlotsBacked(Next(c, s, step))
  {
    StartKeepsBacking(c, s, step.i, s.execs[step.i].phase.attempt + 1);
  }

  lemma DisabledKeepsBacking(c: Config, s: Sys, cost: nat)
    requires SlotsBacked(s)
    ensures SlotsBacked(Next(c, s, Begin(false, cost)))
  {
    HoldersAppend(s.execs, TurnedAway(cost), s.shared.episode);
  }

  lemma StepKeepsBacking(c: Config, s: Sys, step: Step)
    requires c.Valid() && B.WellFormed(c.breaker, s.shared.breaker) && SlotsBacked(s) && Enabled(s, step)
    ensures SlotsBacked(Next(c, s, step))
  {
    match step
    case Tick(_) =>
    case Status => ReadKeepsBacking(c, s, B.Read(s.shared.now));
    case ManualReset => ReadKeepsBacking(c, s, B.Reset(s.shared.now));
    case Begin(enabled, cost) =>
      if enabled { BeginKeepsBacking(c, s, cost); } else { DisabledKeepsBacking(c, s, cost); }
    case Slot(_, _) => SlotKeepsBacking(c, s, step);
    case Headers(_, _) => HeadersKeepBacking(c, s, step);
    case Settle(_, _, _) => SettleKeepsBacking(c, s, step);
    case WakeUp(i) => WakeUpKeepsBacking(c, s, step);
  }

  lemma {:induction false} SlotsAlwaysBacked(c: Config, states: seq<Sys>, steps: seq<Step>, n: nat)
    requires c.Valid() && IsRun(c, states, steps) && n < |states|
    ensures SlotsBacked(states[n]) && B.WellFormed(c.breaker, states[n].shared.breaker)
  {
    SharedPartsRun(c, states, steps, n);
    B.ReachableIsWellFormed(c.breaker, B.INITIAL, states[n].shared.breakerLog);
    if n > 0 {
      SlotsAlwaysBacked(c, states, steps, n - 1);
      StepKeepsBacking(c, states[n - 1], steps[n - 1]);
    } else {
      NoHolders([], 0);
    }
  }

  // ---- What each execution does ------------------------------------------------------------------------------

  datatype Kind = OfSpend | OfGrant | OfRequest | OfFetch | OfRecord | OfSleep

  function KindOf(e: Event): Kind {
    match e
    case Spent => OfSpend
    case SlotGranted => OfGrant
    case RequestEvent => OfRequest
    case Fetch => OfFetch
    case Recorded(_) => OfRecord
    case Slept(_) => OfSleep
  }

  function Count(t: seq<Event>, k: Kind): nat {
    if t == [] then 0 else Count(t[..|t| - 1], k) + if KindOf(t[|t| - 1]) == k then 1 else 0
  }

  function SleepTotal(t: seq<Event>): nat {
    if t == [] then 0 else SleepTotal(t[..|t| - 1]) + if t[|t| - 1].Slept? then t[|t| - 1].ms else 0
  }

  /**
   * What may stand right before an event: a fetch follows its own request event, that its own slot, that its own
   * spend; a sleep follows a failure.
   */
  predicate Follows(c: Config, before: Option<Event>, e: Event) {
    var starting := before.None? || before.value.Slept?;
    match e
    case Spent => starting
    case SlotGranted => c.paced && before == Some(Spent)
    case RequestEvent => before == Some(if c.paced then SlotGranted else Spent)
    case Fetch => before == Some(RequestEvent)
    case Recorded(success) => before == Some(Fetch) || (success && (starting || before == Some(Spent)))
    case Slept(ms) => before == Some(Recorded(false)) && ms <= LongestWait(c.retry)
  }

  function Last(t: seq<Event>): Option<Event> {
    if t == [] then None else Some(t[|t| - 1])
  }

  ghost predicate InOrder(c: Config, t: seq<Event>) {
    forall j :: 0 <= j < |t| ==> Follows(c, Last(t[..j]), t[j])
  }

  /** A trace that is in order, with its counts: spends, fetches, records and sleeps. */
  ghost predicate Tallies(c: Config, t: seq<Event>, spends: int, fetches: int, records: int, sleeps: int) {
    && InOrder(c, t)
    && Count(t, OfSpend) == spends
    && Count(t, OfFetch) == Count(t, OfRequest) == fetches
    && Count(t, OfGrant) == (if c.paced then fetches else 0)
    && Count(t, OfRecord) == records
    && Count(t, OfSleep) == sleeps
    && SleepTotal(t) <= sleeps * LongestWait(c.retry)
  }

  lemma AddEvent(c: Config, t: seq<Event>, e: Event)
    requires InOrder(c, t) && Follows(c, Last(t), e)
    ensures InOrder(c, t + [e]) && Last(t + [e]) == Some(e)
    ensures forall k :: Count(t + [e], k) == Count(t, k) + if KindOf(e) == k then 1 else 0
    ensures SleepTotal(t + [e]) == SleepTotal(t) + if e.Slept? then e.ms else 0
  {
    assert (t + [e])[..|t|] == t;
    forall j | 0 <= j < |t + [e]| ensures Follows(c, Last((t + [e])[..j]), (t + [e])[j]) {
      assert (t + [e])[..j] == t[..j];
    }
  }

  lemma AddSpend(c: Config, t: seq<Event>, a: int)
    requires Tallies(c, t, a, a, a, a) && (t == [] || Last(t).value.Slept?)
    ensures Tallies(c, t + [Spent], a + 1, a, a, a) && Last(t + [Spent]) == Some(Spent)
  {
    AddEvent(c, t, Spent);
  }

  lemma AddRequestAndFetch(c: Config, t: seq<Event>)
    requires InOrder(c, t) && Last(t) == Some(if c.paced then SlotGranted else Spent)
    ensures var u := t + [RequestEvent, Fetch];
            && InOrder(c, u) && Last(u) == Some(Fetch) && SleepTotal(u) == SleepTotal(t)
            && forall k :: Count(u, k) == Count(t, k) + if k.OfRequest? || k.OfFetch? then 1 else 0
  {
    var v := t + [RequestEvent];
    AddEvent(c, t, RequestEvent);
    AddEvent(c, v, Fetch);
    assert t + [RequestEvent, Fetch] == v + [Fetch];
  }

  lemma AddFetch(c: Config, t: seq<Event>, a: int)
    requires Tallies(c, t, a + 1, a, a, a) && Last(t) == Some(Spent)
    ensures var u := t + if c.paced then [SlotGranted, RequestEvent, Fetch] else [RequestEvent, Fetch];
            Tallies(c, u, a + 1, a + 1, a, a) && Last(u) == Some(Fetch)
  {
    if c.paced {
      var g := t + [SlotGranted];
      AddEvent(c, t, SlotGranted);
      AddRequestAndFetch(c, g);
      assert t + [SlotGranted, RequestEvent, Fetch] == g + [RequestEvent, Fetch];
    } else {
      AddRequestAndFetch(c, t);
    }
  }

  lemma AddRecord(c: Config, t: seq<Event>, spends: int, fetches: int, a: int, success: bool)
    requires Tallies(c, t, spends, fetches, a, a) && Follows(c, Last(t), Recorded(success))
    ensures var u := t + [Recorded(success)];
            Tallies(c, u, spends, fetches, a + 1, a) && Last(u) == Some(Recorded(success))
  {
    AddEvent(c, t, Recorded(success));
  }

  lemma AddSleep(c: Config, t: seq<Event>, a: int, ms: nat)
    requires Tallies(c, t, a, a, a, a - 1) && Last(t) == Some(Recorded(false)) && ms <= LongestWait(c.retry)
    ensures Tallies(c, t + [Slept(ms)], a, a, a, a) && Last(t + [Slept(ms)]) == Some(Slept(ms))
  {
    AddEvent(c, t, Slept(ms));
    assert (a - 1) * LongestWait(c.retry) + LongestWait(c.retry) == a * LongestWait(c.retry);
  }

  /** What an execution has done, by where it is suspended; one that was turned away is done and did nothing. */
  ghost predicate Shaped(c: Config, e: Exec) {
    match e.phase
    case AwaitingSlot(a) =>
      e.admitted && c.paced && 1 <= a <= c.retry.maxAttempts && Tallies(c, e.trace, a, a - 1, a - 1, a - 1)
      && Last(e.trace) == Some(Spent) && (e.trial.Some? ==> a == 1)
    case Fetching(a) =>
      e.admitted && 1 <= a <= c.retry.maxAttempts && Tallies(c, e.trace, a, a, a - 1, a - 1)
      && Last(e.trace) == Some(Fetch) && (e.trial.Some? ==> a == 1)
    case Sleeping(a) =>
      e.admitted && 1 <= a < c.retry.maxAttempts && Tallies(c, e.trace, a, a, a, a)
      && Last(e.trace).Some? && Last(e.trace).value.Slept? && e.trial.None?
    case Done => e.trial.None? && if e.admitted then Finished(c, e.trace) else e.trace == []
  }

  /** An admitted execution that finished recorded once per attempt and ended in one of three ways. */
  ghost predicate Finished(c: Config, t: seq<Event>) {
    exists a, s, f :: EndedAfter(c, t, a, s, f)
  }

  /** `a` attempts, of which the last may have stopped at the quota (s = f = a - 1) or at the pacer (f = a - 1). */
  ghost predicate EndedAfter(c: Config, t: seq<Event>, a: int, s: int, f: int) {
    1 <= a <= c.retry.maxAttempts && a - 1 <= f <= s <= a && Tallies(c, t, s, f, a, a - 1)
  }

  /** The execution is about to make an attempt: it is new or has just slept. */
  ghost predicate Ready(c: Config, e: Exec, a: nat) {
    && e.admitted && a < c.retry.maxAttempts && Tallies(c, e.trace, a, a, a, a)
    && ((e.trace == [] && a == 0) || (e.trial.None? && Last(e.trace).Some? && Last(e.trace).value.Slept?))
  }

  lemma RefusedStartIsShaped(c: Config, e: Exec, a: nat)
    requires c.Valid() && Ready(c, e, a)
    ensures Shaped(c, Ended(Record(e, true)))
  {
    AddRecord(c, e.trace, a, a, a, true);
    assert EndedAfter(c, e.trace + [Recorded(true)], a + 1, a, a);
  }

  lemma QueuedStartIsShaped(c: Config, e: Exec, a: nat)
    requires c.Valid() && Ready(c, e, a) && c.paced
    ensures Shaped(c, Moved(e, AwaitingSlot(a + 1), [Spent]))
  {
    AddSpend(c, e.trace, a);
  }

  lemma SentStartIsShaped(c: Config, e: Exec, a: nat)
    requires c.Valid() && Ready(c, e, a) && !c.paced
    ensures Shaped(c, Moved(e, Fetching(a + 1), [Spent, RequestEvent, Fetch]))
  {
    AddSpend(c, e.trace, a);
    AddFetch(c, e.trace + [Spent], a);
    assert e.trace + [Spent, RequestEvent, Fetch] == (e.trace + [Spent]) + [RequestEvent, Fetch];
  }

  lemma StartIsShaped(c: Config, h: Shared, e: Exec, a: nat)
    requires c.Valid() && Ready(c, e, a)
    ensures Shaped(c, StartExec(c, h, e, a + 1))
  {
    if !HasBudget(h, e.cost) {
      RefusedStartIsShaped(c, e, a);
    } else if c.paced {
      QueuedStartIsShaped(c, e, a);
    } else {
      SentStartIsShaped(c, e, a);
    }
  }

  lemma SettleIsShaped(c: Config, e: Exec, success: bool, wait: Option<nat>)
    requires c.Valid() && e.phase.Fetching? && Shaped(c, e)
    requires wait.Some? ==> !success && e.phase.attempt != c.retry.maxAttempts && wait.value <= LongestWait(c.retry)
    ensures Shaped(c, Rested(Record(e, success), e.phase.attempt, wait))
  {
    var a := e.phase.attempt;
    var t := e.trace + [Recorded(success)];
    AddRecord(c, e.trace, a, a, a - 1, success);
    if wait.Some? {
      AddSleep(c, t, a, wait.value);
    } else {
      assert EndedAfter(c, t, a, a, a);
    }
  }

  lemma GrantIsShaped(c: Config, e: Exec)
    requires c.Valid() && e.phase.AwaitingSlot? && Shaped(c, e)
    ensures Shaped(c, Moved(e, Fetching(e.phase.attempt), [SlotGranted, RequestEvent, Fetch]))
  {
    AddFetch(c, e.trace, e.phase.attempt - 1);
  }

  lemma RefusalIsShaped(c: Config, e: Exec)
    requires c.Valid() && e.phase.AwaitingSlot? && Shaped(c, e)
    ensures Shaped(c, Ended(Record(e, true)))
  {
    var a := e.phase.attempt;
    AddRecord(c, e.trace, a, a - 1, a - 1, true);
    assert EndedAfter(c, e.trace + [Recorded(true)], a, a, a - 1);
  }

  lemma ExecIsShaped(c: Config, s: Sys, step: Step)
    requires c.Valid() && Enabled(s, step) && !Quiet(step)
    requires !step.Begin? ==> Shaped(c, s.execs[step.i])
    ensures Shaped(c, ExecAfter(c, s, step))
  {
    var h := s.shared;
    match step
    case Begin(enabled, cost) =>
      var g := Asked(c, h, B.Acquire(h.now));
      StartIsShaped(c, g, Admitted(g, cost), 0);
    case Slot(i, granted) =>
      if granted { GrantIsShaped(c, s.execs[i]); } else { RefusalIsShaped(c, s.execs[i]); }
    case Headers(_, _) =>
    case Settle(i, outcome, random) =>
      SettleIsShaped(c, s.execs[i], !Counts(outcome), WaitAfter(c, s.execs[i].phase.attempt, outcome, random));
    case WakeUp(i) => StartIsShaped(c, h, s.execs[i], s.execs[i].phase.attempt);
  }

  /** In every state of every run every execution has the shape its suspension point says. */
  lemma {:induction false} ExecutionsAreShaped(c: Config, states: seq<Sys>, steps: seq<Step>, n: nat)
    requires c.Valid() && IsRun(c, states, steps) && n < |states|
    ensures forall i :: 0 <= i < |states[n].execs| ==> Shaped(c, states[n].execs[i])
  {
    if n > 0 {
      ExecutionsAreShaped(c, states, steps, n - 1);
      var s, step := states[n - 1], steps[n - 1];
      if !Quiet(step) { ExecIsShaped(c, s, step); }
    }
  }

  // ---- Totals over all executions ----------------------------------------------------------------------------

  function Total(execs: seq<Exec>, k: Kind): nat {
    if execs == [] then 0 else Total(execs[..|execs| - 1], k) + Count(execs[|execs| - 1].trace, k)
  }

  lemma {:induction false} TotalUpdate(execs: seq<Exec>, i: nat, e: Exec, k: Kind)
    requires i < |execs|
    ensures Total(execs[i := e], k) == Total(execs, k) - Count(execs[i].trace, k) + Count(e.trace, k)
  {
    var before := execs[..|execs| - 1];
    if i < |execs| - 1 {
      TotalUpdate(before, i, e, k);
      assert execs[i := e][..|execs| - 1] == before[i := e];
    } else {
      assert execs[i := e][..|execs| - 1] == before;
    }
  }

  lemma CountOneMore(t: seq<Event>, e: Event, k: Kind)
    ensures Count(t + [e], k) == Count(t, k) + if KindOf(e) == k then 1 else 0
  {
    assert (t + [e])[..|t|] == t;
  }

  lemma CountThreeMore(t: seq<Event>, a: Event, b: Event, d: Event, k: Kind)
    ensures Count(t + [a, b, d], k)
            == Count(t, k) + (if KindOf(a) == k then 1 else 0) + (if KindOf(b) == k then 1 else 0)
               + (if KindOf(d) == k then 1 else 0)
  {
    var u := t + [a];
    var v := u + [b];
    CountOneMore(t, a, k);
    CountOneMore(u, b, k);
    CountOneMore(v, d, k);
    assert t + [a, b, d] == v + [d];
  }

  lemma StartCounts(c: Config, h: Shared, e: Exec, a: nat)
    ensures var e', h' := StartExec(c, h, e, a), StartShared(c, h, e);
            Count(e'.trace, OfFetch) - Count(e.trace, OfFetch) == |h'.fetchLog| - |h.fetchLog|
  {
    if !HasBudget(h, e.cost) {
      CountOneMore(e.trace, Recorded(true), OfFetch);
    } else if c.paced {
      CountOneMore(e.trace, Spent, OfFetch);
    } else {
      CountThreeMore(e.trace, Spent, RequestEvent, Fetch, OfFetch);
    }
  }

  lemma BeginCounts(c: Config, s: Sys, enabled: bool, cost: nat)
    ensures Count(ExecAfter(c, s, Begin(enabled, cost)).trace, OfFetch)
            == |SharedAfter(c, s, Begin(enabled, cost)).fetchLog| - |s.shared.fetchLog|
  {
    var g := Asked(c, s.shared, B.Acquire(s.shared.now));
    StartCounts(c, g, Admitted(g, cost), 1);
  }

  /** Every step adds to one execution's trace exactly the fetch it adds to the network log. */
  lemma StepCounts(c: Config, s: Sys, step: Step)
    requires Enabled(s, step) && !Quiet(step)
    ensures var before, after := (if step.Begin? then [] else s.execs[step.i].trace), ExecAfter(c, s, step).trace;
            Count(after, OfFetch) - Count(before, OfFetch) == |SharedAfter(c, s, step).fetchLog| - |s.shared.fetchLog|
  {
    match step
    case Begin(enabled, cost) => BeginCounts(c, s, enabled, cost);
    case WakeUp(i) => StartCounts(c, s.shared, s.execs[i], s.execs[i].phase.attempt + 1);
    case Slot(i, granted) =>
      if granted {
        CountThreeMore(s.execs[i].trace, SlotGranted, RequestEvent, Fetch, OfFetch);
      } else {
        CountOneMore(s.execs[i].trace, Recorded(true), OfFetch);
      }
    case Headers(_, _) =>
    case Settle(i, outcome, random) =>
      var a := s.execs[i].phase.attempt;
      SettleFetchesNothing(s.execs[i], !Counts(outcome), a, WaitAfter(c, a, outcome, random));
  }

  lemma SettleFetchesNothing(e: Exec, success: bool, attempt: nat, wait: Option<nat>)
    ensures Count(Rested(Record(e, success), attempt, wait).trace, OfFetch) == Count(e.trace, OfFetch)
  {
    var r := Record(e, success).trace;
    CountOneMore(e.trace, Recorded(success), OfFetch);
    if wait.Some? { CountOneMore(r, Slept(wait.value), OfFetch); }
  }

  /** The fetches of all executions together are the requests that left for the network. */
  lemma {:induction false} FetchesLeave(c: Config, states: seq<Sys>, steps: seq<Step>, n: nat)
    requires IsRun(c, states, steps) && n < |states|
    ensures Total(states[n].execs, OfFetch) == |states[n].shared.fetchLog|
  {
    if n > 0 {
      FetchesLeave(c, states, steps, n - 1);
      var s, step := states[n - 1], steps[n - 1];
      if !Quiet(step) {
        StepCounts(c, s, step);
        var e := ExecAfter(c, s, step);
        if step.Begin? {
          assert (s.execs + [e])[..|s.execs|] == s.execs;
        } else {
          TotalUpdate(s.execs, step.i, e, OfFetch);
        }
      }
    }
  }

  // ---- The quota under the client ----------------------------------------------------------------------------

  /** Without pacing or header-driven retuning a request leaves at the very instant its unit is spent. */
  ghost predicate SentWhenSpent(first: Q.Quota, h: Shared) {
    h.fetchLog == Q.AcceptedAt(first, h.quotaLog) && Q.NeverRetuned(h.quotaLog)
  }

  lemma StartLogs(c: Config, h: Shared, e: Exec)
    requires !c.paced && h.quota.Some?
    ensures var g := StartShared(c, h, e);
            && g.quotaLog == h.quotaLog + [Q.Consume(h.now, e.cost)]
            && g.fetchLog == if HasBudget(h, e.cost) then h.fetchLog + [h.now] else h.fetchLog
  {
  }

  lemma StartSends(c: Config, first: Q.Quota, h: Shared, e: Exec)
    requires !c.paced && h.quota.Some? && QuotaExplained(Some(first), h) && SentWhenSpent(first, h)
    ensures SentWhenSpent(first, StartShared(c, h, e))
  {
    var op := Q.Consume(h.now, e.cost);
    Q.OneMore(first, h.quotaLog, op);
    StartLogs(c, h, e);
    assert HasBudget(h, e.cost) <==> Q.Spends(Q.Run(first, h.quotaLog), op);
    assert Q.NeverRetuned(h.quotaLog + [op]);
  }

  lemma {:induction false} UnpacedSendsWhenSpent(c: Config, states: seq<Sys>, steps: seq<Step>, n: nat)
    requires !c.paced && !c.adaptive && IsRun(c, states, steps) && n < |states| && states[0].shared.quota.Some?
    ensures SentWhenSpent(states[0].shared.quota.value, states[n].shared)
    ensures forall i :: 0 <= i < |states[n].execs| ==> !states[n].execs[i].phase.AwaitingSlot?
  {
    if n > 0 {
      UnpacedSendsWhenSpent(c, states, steps, n - 1);
      SharedPartsRun(c, states, steps, n - 1);
      var s, step := states[n - 1], steps[n - 1];
      UnpacedStep(c, states[0].shared.quota.value, s, step);
      NoneAwaitSlot(c, s, step);
    }
  }

  lemma NoneAwaitSlot(c: Config, s: Sys, step: Step)
    requires Enabled(s, step) && forall i :: 0 <= i < |s.execs| ==> !s.execs[i].phase.AwaitingSlot?
    requires !Quiet(step) ==> !ExecAfter(c, s, step).phase.AwaitingSlot?
    ensures var e := Next(c, s, step).execs; forall i :: 0 <= i < |e| ==> !e[i].phase.AwaitingSlot?
  {
  }

  lemma UnpacedStep(c: Config, first: Q.Quota, s: Sys, step: Step)
    requires !c.paced && !c.adaptive && Enabled(s, step) && s.shared.quota.Some?
    requires QuotaExplained(Some(first), s.shared) && SentWhenSpent(first, s.shared)
    requires forall i :: 0 <= i < |s.execs| ==> !s.execs[i].phase.AwaitingSlot?
    ensures SentWhenSpent(first, SharedAfter(c, s, step))
    ensures !Quiet(step) ==> !ExecAfter(c, s, step).phase.AwaitingSlot?
  {
    match step
    case Begin(_, cost) =>
      var g := Asked(c, s.shared, B.Acquire(s.shared.now));
      StartSends(c, first, g, Admitted(g, cost));
    case WakeUp(i) => StartSends(c, first, s.shared, s.execs[i]);
    case _ =>
  }

  /** Every request of the run costs at least one unit, as the default does. */
  ghost predicate Costly(steps: seq<Step>) {
    forall n :: 0 <= n < |steps| && steps[n].Begin? ==> steps[n].cost >= 1
  }

  /** Then so does everything the quota is asked for. */
  lemma {:induction false} CostsAreAsked(c: Config, states: seq<Sys>, steps: seq<Step>, n: nat)
    requires IsRun(c, states, steps) && n < |states| && Costly(steps)
    ensures Q.Costly(states[n].shared.quotaLog)
    ensures forall i :: 0 <= i < |states[n].execs| ==> states[n].execs[i].cost >= 1
  {
    if n > 0 {
      CostsAreAsked(c, states, steps, n - 1);
      CostlyStep(c, states[n - 1], steps[n - 1]);
    }
  }

  lemma CostlyStep(c: Config, s: Sys, step: Step)
    requires Enabled(s, step) && Q.Costly(s.shared.quotaLog) && (step.Begin? ==> step.cost >= 1)
    requires forall i :: 0 <= i < |s.execs| ==> s.execs[i].cost >= 1
    ensures Q.Costly(SharedAfter(c, s, step).quotaLog)
    ensures var e := Next(c, s, step).execs; forall i :: 0 <= i < |e| ==> e[i].cost >= 1
  {
  }

  // ---- Main results ------------------------------------------------------------------------------------------

  ghost predicate AllDone(s: Sys) {
    forall i :: 0 <= i < |s.execs| ==> s.execs[i].phase.Done?
  }

  /**
   * The breaker never wedges: at rest, after any interleaving, a call is refused only by an open circuit whose wait
   * is not over. In particular a half-open breaker always admits a trial.
   */
  lemma NeverWedges(c: Config, states: seq<Sys>, steps: seq<Step>, n: nat)
    requires c.Valid() && IsRun(c, states, steps) && n < |states| && AllDone(states[n])
    ensures states[n].shared.breaker.state.Open? ==> states[n].shared.breaker.nextAttemptAt.Some?
    ensures var h := states[n].shared;
            B.Admits(c.breaker, h.breaker, h.now)
            <==> !(h.breaker.state.Open? && h.now < h.breaker.nextAttemptAt.value)
  {
    SlotsAlwaysBacked(c, states, steps, n);
    ExecutionsAreShaped(c, states, steps, n);
    NoHolders(states[n].execs, states[n].shared.episode);
  }

  /**
   * Trials in flight in half-open: exactly the slots counted as taken plus the slots freed by calls that held none.
   * The class comment caps them at successThreshold; they stay within it iff that sum does, and never exceed
   * 2 * successThreshold - 1.
   */
  lemma TrialsInFlight(c: Config, states: seq<Sys>, steps: seq<Step>, n: nat)
    requires c.Valid() && IsRun(c, states, steps) && n < |states| && states[n].shared.breaker.state.HalfOpen?
    ensures var h, held := states[n].shared, Holders(states[n].execs, states[n].shared.episode);
            && held == h.breaker.halfOpenInFlight + h.freed <= 2 * c.breaker.successThreshold - 1
            && h.breaker.halfOpenInFlight <= c.breaker.successThreshold
            && 0 <= h.freed <= h.breaker.halfOpenSuccesses
            && (h.freed == 0 ==> held <= c.breaker.successThreshold)
  {
    SlotsAlwaysBacked(c, states, steps, n);
  }

  /** A call that may proceed in half-open takes the trials in flight over the cap iff slots were freed for it. */
  lemma TrialBreaksCapIff(c: Config, s: Sys)
    requires c.Valid() && SlotsBacked(s) && s.shared.breaker.state.HalfOpen?
    requires B.Admits(c.breaker, s.shared.breaker, s.shared.now)
    ensures var h := Asked(c, s.shared, B.Acquire(s.shared.now));
            forall cost :: Holders(s.execs + [Admitted(h, cost)], h.episode) > c.breaker.successThreshold
                           <==> s.shared.freed >= c.breaker.successThreshold - s.shared.breaker.halfOpenInFlight
  {
    var h := Asked(c, s.shared, B.Acquire(s.shared.now));
    forall cost ensures Holders(s.execs + [Admitted(h, cost)], h.episode) == Holders(s.execs, h.episode) + 1 {
      HoldersAppend(s.execs, Admitted(h, cost), h.episode);
    }
  }

  /**
   * Client conservation for every execution of every run: at most maxAttempts fetches, as many as request events,
   * each with its own spend and its own slot; one that was turned away has done nothing; an admitted execution that
   * finished has recorded, once per attempt; and it has slept at most (maxAttempts - 1) times the longest wait.
   */
  lemma ClientConservation(c: Config, states: seq<Sys>, steps: seq<Step>, n: nat, i: nat)
    requires c.Valid() && IsRun(c, states, steps) && n < |states| && i < |states[n].execs|
    ensures var e, most := states[n].execs[i], c.retry.maxAttempts;
            && InOrder(c, e.trace)
            && Count(e.trace, OfFetch) == Count(e.trace, OfRequest) <= Count(e.trace, OfSpend) <= most
            && (c.paced ==> Count(e.trace, OfFetch) == Count(e.trace, OfGrant))
            && Count(e.trace, OfRecord) <= most
            && (!e.admitted ==> e.trace == [] && e.phase.Done?)
            && (e.admitted && e.phase.Done? ==> Count(e.trace, OfRecord) >= 1)
            && SleepTotal(e.trace) <= (most - 1) * Max(c.retry.maxDelayMs, c.retry.maxRetryAfterMs + 99)
  {
    ExecutionsAreShaped(c, states, steps, n);
    var e := states[n].execs[i];
    assert Shaped(c, e);
    var sleeps := Count(e.trace, OfSleep);
    if e.phase.Done? && e.admitted {
      var a, s, f :| EndedAfter(c, e.trace, a, s, f);
    }
    SleepsFit(sleeps, c.retry.maxAttempts, LongestWait(c.retry));
  }

  /** An execution counts as admitted iff kill switch and breaker let it in, and keeps that and its cost for good. */
  lemma AdmissionIsFinal(c: Config, s: Sys, step: Step)
    requires Enabled(s, step) && !Quiet(step)
    ensures step.Begin? ==>
              var e := ExecAfter(c, s, step);
              && (e.admitted <==> step.enabled && B.Admits(c.breaker, s.shared.breaker, s.shared.now))
              && e.cost == step.cost
    ensures !step.Begin? ==>
              var e := ExecAfter(c, s, step);
              e.admitted == s.execs[step.i].admitted && e.cost == s.execs[step.i].cost
  {
  }

  lemma SleepsFit(sleeps: nat, most: int, longest: nat)
    requires most >= 1
    ensures sleeps <= most - 1 ==> sleeps * longest <= (most - 1) * longest
  {
  }

  // ---- The cap on trials is broken ---------------------------------------------------------------------------

  lemma ExtendRun(c: Config, states: seq<Sys>, steps: seq<Step>, step: Step)
    returns (states': seq<Sys>, steps': seq<Step>)
    requires IsRun(c, states, steps) && Enabled(states[|steps|], step)
    ensures IsRun(c, states', steps') && |steps'| == |steps| + 1
    ensures states'[0] == states[0] && steps' == steps + [step]
    ensures states'[|steps'|] == Next(c, states[|steps|], step)
  {
    states', steps' := states + [Next(c, states[|steps|], step)], steps + [step];
  }

  /** A client without quota and pacer that never retries. */
  function Plain(b: B.Settings): Config {
    Config(b, RetryPolicy(1, 0, 0, 0), false, false)
  }

  predicate WaitsOutside(e: Exec) {
    e.phase == Fetching(1) && e.trial.None?
  }

  /** Breaker and freed slots, and executions `from` to `upto` on the network without a trial's slot. */
  ghost predicate Stage(s: Sys, st: B.State, taken: nat, successes: nat, freed: int, from: nat, upto: nat) {
    var h := s.shared;
    && h.quota.None? && h.breaker.state == st && h.breaker.halfOpenInFlight == taken
    && h.breaker.halfOpenSuccesses == successes && h.freed == freed
    && from <= upto <= |s.execs| && forall i :: from <= i < upto ==> WaitsOutside(s.execs[i])
  }

  const CALL := Step.Begin(true, 1)

  /** `n` calls while the circuit is closed. */
  lemma {:induction false} CallsClosed(b: B.Settings, n: nat) returns (states: seq<Sys>, steps: seq<Step>)
    ensures IsRun(Plain(b), states, steps)
    ensures var s := states[|steps|];
            Stage(s, B.Closed, 0, 0, 0, 0, n) && |s.execs| == n && s.shared.breaker.consecutiveFailures == 0
  {
    if n == 0 {
      states, steps := [Sys(Shared(0, B.INITIAL, None, 0, 0, [], [], []), [])], [];
    } else {
      states, steps := CallsClosed(b, n - 1);
      states, steps := ExtendRun(Plain(b), states, steps, CALL);
    }
  }

  /** The last `n` of them fail, which opens the circuit when `n` reaches the threshold. */
  lemma {:induction false} CallsFail(b: B.Settings, k: nat, n: nat) returns (states: seq<Sys>, steps: seq<Step>)
    requires b.Valid() && n <= b.failureThreshold
    ensures IsRun(Plain(b), states, steps)
    ensures var s, st := states[|steps|], if n == b.failureThreshold then B.Open else B.Closed;
            && Stage(s, st, 0, 0, 0, 0, k) && |s.execs| == k + b.failureThreshold
            && (forall i :: k <= i < |s.execs| - n ==> WaitsOutside(s.execs[i]))
            && s.shared.breaker.consecutiveFailures == n
  {
    if n == 0 {
      states, steps := CallsClosed(b, k + b.failureThreshold);
    } else {
      states, steps := CallsFail(b, k, n - 1);
      var s := states[|steps|];
      var i := |s.execs| - n;
      assert WaitsOutside(s.execs[i]);
      states, steps := ExtendRun(Plain(b), states, steps, Settle(i, Failure(Timeout, None), 0.0));
    }
  }

  /** When the wait is over, `n` calls are let through as trials. */
  lemma {:induction false} CallsTrial(b: B.Settings, k: nat, n: nat) returns (states: seq<Sys>, steps: seq<Step>)
    requires b.Valid() && 1 <= n <= b.successThreshold
    ensures IsRun(Plain(b), states, steps) && Stage(states[|steps|], B.HalfOpen, n, 0, 0, 0, k)
  {
    if n == 1 {
      states, steps := CallsFail(b, k, b.failureThreshold);
      SlotsAlwaysBacked(Plain(b), states, steps, |steps|);
      var h := states[|steps|].shared;
      states, steps := ExtendRun(Plain(b), states, steps, Tick(Max(0, h.breaker.nextAttemptAt.value - h.now)));
    } else {
      states, steps := CallsTrial(b, k, n - 1);
    }
    states, steps := ExtendRun(Plain(b), states, steps, CALL);
  }

  /** Then `n` calls from before the outage succeed, and each frees a slot for one more trial. */
  lemma {:induction false} StrangersFree(b: B.Settings, k: nat, n: nat) returns (states: seq<Sys>, steps: seq<Step>)
    requires b.Valid() && n <= k < b.successThreshold
    ensures IsRun(Plain(b), states, steps) && Stage(states[|steps|], B.HalfOpen, b.successThreshold, n, n, n, k)
  {
    if n == 0 {
      states, steps := CallsTrial(b, k, b.successThreshold);
    } else {
      states, steps := StrangersFree(b, k, n - 1);
      assert WaitsOutside(states[|steps|].execs[n - 1]);
      states, steps := ExtendRun(Plain(b), states, steps, Settle(n - 1, Answer(200), 0.0));
      states, steps := ExtendRun(Plain(b), states, steps, CALL);
    }
  }

  /** For every breaker a run reaches 2 * successThreshold - 1 trials in flight, so the cap fails from 2 on. */
  lemma TrialsInFlightAreReached(b: B.Settings) returns (c: Config, states: seq<Sys>, steps: seq<Step>)
    requires b.Valid() && b.successThreshold >= 1
    ensures c.Valid() && c.breaker == b && IsRun(c, states, steps)
    ensures var s := states[|steps|];
            s.shared.breaker.state.HalfOpen? && Holders(s.execs, s.shared.episode) == 2 * b.successThreshold - 1
  {
    c := Plain(b);
    states, steps := StrangersFree(b, b.successThreshold - 1, b.successThreshold - 1);
    SlotsAlwaysBacked(c, states, steps, |steps|);
  }

  // ---- The class ---------------------------------------------------------------------------------------------

  /**
   * The client object: its breaker and quota, and the suspended frames of the executions in progress. Each method
   * is one segment of `#execute` between two awaits, run at one clock reading.
   */
  class ProviderClient {
    const config: Config
    const breaker: B.CircuitBreaker
    const quota: Q.QuotaCounter?
    var execs: seq<Exec>
    var episode: nat
    var fetchLog: seq<int>
    ghost var freed: int
    ghost var breakerLog: seq<B.Event>
    ghost var quotaLog: seq<Q.Op>

    ghost function Model(now: int): Sys
      reads this, breaker, quota
    {
      Sys(SharedNow(now), execs)
    }

    ghost function SharedNow(now: int): Shared
      reads this, breaker, quota
    {
      Shared(now, breaker.Model(), if quota == null then None else Some(quota.Model()), episode, freed,
             breakerLog, quotaLog, fetchLog)
    }

    ghost predicate Valid() {
      config.Valid() && breaker.settings == config.breaker
    }

    constructor (config: Config, policy: Option<Q.Policy>, now: int)
      requires config.Valid() && (policy.Some? ==> policy.value.Valid())
      ensures Valid() && this.config == config && Initial(Model(now))
      ensures fresh(breaker) && (quota == null || fresh(quota))
    {
      this.config := config;
      breaker := new B.CircuitBreaker(config.breaker);
      if policy.Some? {
        var counter := new Q.QuotaCounter(policy.value);
        quota := counter;
      } else {
        quota := null;
      }
      execs, episode, freed, fetchLog, breakerLog, quotaLog := [], 0, 0, [], [], [];
    }

    /** Bookkeeping after the breaker answered: its states and openings delimit the episodes. */
    method NoteBreaker(ghost event: B.Event, before: B.State, opensBefore: nat)
      modifies this`episode, this`freed, this`breakerLog
      ensures breakerLog == old(breakerLog) + [event]
      ensures if breaker.state != before || breaker.opens != opensBefore then episode == old(episode) + 1 && freed == 0
              else episode == old(episode) && freed == old(freed)
    {
      breakerLog := breakerLog + [event];
      if breaker.state != before || breaker.opens != opensBefore {
        episode := episode + 1;
        freed := 0;
      }
    }

    /** The operator's reset reaches the breaker directly. */
    method ResetBreaker(now: int)
      requires Valid()
      modifies this`episode, this`freed, this`breakerLog, breaker
      ensures Model(now) == Next(config, old(Model(now)), ManualReset)
    {
      var state, opens := breaker.state, breaker.opens;
      breaker.Reset();
      NoteBreaker(B.Event.Reset(now), state, opens);
    }

    method Admit(now: int) returns (ok: bool)
      requires Valid()
      modifies this`episode, this`freed, this`breakerLog, breaker
      ensures ok == B.Admits(config.breaker, old(breaker.Model()), now)
      ensures SharedNow(now) == Asked(config, old(SharedNow(now)), B.Acquire(now))
    {
      var state, opens := breaker.state, breaker.opens;
      ok := breaker.TryAcquire(now);
      NoteBreaker(B.Acquire(now), state, opens);
    }

    /** Tells the breaker how an attempt went, on behalf of the execution that made it. */
    method RecordFor(e: Exec, success: bool, now: int) returns (e': Exec)
      requires Valid()
      modifies this`episode, this`freed, this`breakerLog, breaker
      ensures e' == Record(e, success)
      ensures SharedNow(now) == WithRecord(config, old(SharedNow(now)), e, success)
    {
      var state, opens := breaker.state, breaker.opens;
      ghost var holder, taken := e.trial == Some(episode), breaker.halfOpenInFlight;
      if success { breaker.RecordSuccess(); } else { breaker.RecordFailure(now); }
      NoteBreaker(if success then B.Succeed(now) else B.Fail(now), state, opens);
      if success && state == B.HalfOpen && breaker.state == state { freed := freed + Shift(holder, taken); }
      e' := e.(trace := e.trace + [Recorded(success)], trial := None);
    }

    /** The head of the loop body up to the pacer or the network. */
    method Attempt(e: Exec, attempt: nat, now: int) returns (e': Exec)
      requires Valid()
      modifies this, breaker, quota
      ensures execs == old(execs)
      ensures e' == StartExec(config, old(SharedNow(now)), e, attempt)
      ensures SharedNow(now) == StartShared(config, old(SharedNow(now)), e)
    {
      if quota != null {
        var ok := quota.TryConsume(now, e.cost);
        quotaLog := quotaLog + [Q.Consume(now, e.cost)];
        if !ok {
          e' := RecordFor(e, true, now);
          e' := e'.(phase := Done);
          return;
        }
      }
      if config.paced {
        return e.(phase := AwaitingSlot(attempt), trace := e.trace + [Spent]);
      }
      fetchLog := fetchLog + [now];
      e' := e.(phase := Fetching(attempt), trace := e.trace + [Spent, RequestEvent, Fetch]);
    }

    method Begin(enabled: bool, cost: nat, now: int)
      requires Valid()
      modifies this, breaker, quota
      ensures Model(now) == Next(config, old(Model(now)), Step.Begin(enabled, cost))
    {
      if !enabled {
        execs := execs + [Exec(Done, [], None, cost, false)];
        return;
      }
      var ok := Admit(now);
      if !ok {
        execs := execs + [Exec(Done, [], None, cost, false)];
        return;
      }
      var e := Exec(Done, [], if breaker.state == B.HalfOpen then Some(episode) else None, cost, true);
      e := Attempt(e, 1, now);
      execs := execs + [e];
    }

    method SlotSettles(i: nat, granted: bool, now: int)
      requires Valid() && Enabled(Model(now), Slot(i, granted))
      modifies this, breaker
      ensures Model(now) == Next(config, old(Model(now)), Slot(i, granted))
    {
      var e := execs[i];
      if granted {
        fetchLog := fetchLog + [now];
        e := e.(phase := Fetching(e.phase.attempt), trace := e.trace + [SlotGranted, RequestEvent, Fetch]);
      } else {
        e := RecordFor(e, true, now);
        e := e.(phase := Done);
      }
      execs := execs[i := e];
    }

    method HeadersArrive(i: nat, policy: Option<Q.Policy>, now: int)
      requires Valid() && Enabled(Model(now), Headers(i, policy))
      modifies this`quotaLog, quota
      ensures Model(now) == Next(config, old(Model(now)), Headers(i, policy))
      ensures quota != null ==>
                quota.Model() == (if config.adaptive && policy.Some?
                                  then Q.Retuned(old(quota.Model()), now, policy.value) else old(quota.Model()))
    {
      if config.adaptive && quota != null && policy.Some? {
        var changed := quota.Retune(now, policy.value);
        quotaLog := quotaLog + [Q.Retune(now, policy.value)];
      }
      assert execs[i := execs[i]] == execs;
    }

    /** Whatever exchange the outcome stands for, the breaker hears of a failure iff it blames the provider. */
    method AttemptSettles(i: nat, outcome: Outcome, random: real, now: int)
      requires Valid() && Enabled(Model(now), Settle(i, outcome, random))
      modifies this, breaker
      ensures breakerLog == old(breakerLog) + [B.Fail(now)] || breakerLog == old(breakerLog) + [B.Succeed(now)]
      ensures forall reply, accepted :: outcome == Classify(reply, accepted) ==>
                (breakerLog == old(breakerLog) + [B.Fail(now)]
                 <==> !reply.Response? || (reply.status !in accepted && (reply.status == 408 || reply.status == 429
                                                                         || reply.status >= 500)))
      ensures Model(now) == Next(config, old(Model(now)), Settle(i, outcome, random))
    {
      var attempt := execs[i].phase.attempt;
      var e := RecordFor(execs[i], !Counts(outcome), now);
      assert breakerLog[|breakerLog| - 1] == if Counts(outcome) then B.Fail(now) else B.Succeed(now);
      if outcome.Answer? || !Retryable(outcome.kind) || attempt == config.retry.maxAttempts {
        execs := execs[i := e.(phase := Done)];
        return;
      }
      var wait := BackoffMs(config.retry, attempt, outcome.retryAfterMs, random);
      if wait.None? {
        execs := execs[i := e.(phase := Done)];
        return;
      }
      execs := execs[i := e.(phase := Sleeping(attempt), trace := e.trace + [Slept(wait.value)])];
    }

    method SleepEnds(i: nat, now: int)
      requires Valid() && Enabled(Model(now), WakeUp(i))
      modifies this, breaker, quota
      ensures Model(now) == Next(config, old(Model(now)), WakeUp(i))
    {
      var e := Attempt(execs[i], execs[i].phase.attempt + 1, now);
      execs := execs[i := e];
    }
  }
}
