/**
 * The per-provider circuit breaker: a class whose methods update the source's private fields in place,
 * specified by pure transitions on a `Breaker` value, and theorems about whole event sequences.
 */
module CircuitBreakers {
  import opened Common

  datatype State = Closed | Open | HalfOpen

  /** A policy as a caller writes it; absent members take the documented defaults. */
  datatype Policy = Policy(failureThreshold: int, resetTimeoutMs: int,
                           successThreshold: Option<int>, maxResetTimeoutMs: Option<int>)

  /** A policy after validation and defaulting. `successThreshold` is not validated by the program. */
  datatype Settings = Settings(failureThreshold: int, resetTimeoutMs: int,
                               successThreshold: int, maxResetTimeoutMs: int)
  {
    ghost predicate Valid() {
      failureThreshold >= 1 && 0 <= resetTimeoutMs <= maxResetTimeoutMs
    }
  }

  datatype PolicyError = FailureThresholdTooSmall | NegativeReset | CeilingBelowReset

  /**
   * A policy is accepted exactly when its three numeric demands hold; the first one broken names the error. Acceptance
   * yields valid settings, with two successes to close and no widening unless the policy says otherwise.
   */
  function Configure(p: Policy): (r: Result<Settings, PolicyError>)
    ensures r.Ok? <==> p.failureThreshold >= 1 && p.resetTimeoutMs >= 0
                       && (p.maxResetTimeoutMs.Some? ==> p.maxResetTimeoutMs.value >= p.resetTimeoutMs)
    ensures r == Err(FailureThresholdTooSmall) <==> p.failureThreshold < 1
    ensures r == Err(NegativeReset) <==> p.failureThreshold >= 1 && p.resetTimeoutMs < 0
    ensures r.Ok? ==> r.value.Valid() && r.value.failureThreshold == p.failureThreshold
    ensures r.Ok? ==> if p.successThreshold.None? then r.value.successThreshold == 2
                      else Some(r.value.successThreshold) == p.successThreshold
    ensures r.Ok? && p.maxResetTimeoutMs.None? ==> forall k: nat | k >= 1 :: Backoff(r.value, k) == p.resetTimeoutMs
  {
    if p.failureThreshold < 1 then Err(FailureThresholdTooSmall)
    else if p.resetTimeoutMs < 0 then Err(NegativeReset)
    else if p.maxResetTimeoutMs.Some? && p.maxResetTimeoutMs.value < p.resetTimeoutMs then Err(CeilingBelowReset)
    else
      var settings := Settings(p.failureThreshold, p.resetTimeoutMs,
                               if p.successThreshold.Some? then p.successThreshold.value else 2,
                               if p.maxResetTimeoutMs.Some? then p.maxResetTimeoutMs.value else p.resetTimeoutMs);
      assert forall k: nat :: settings.resetTimeoutMs <= settings.resetTimeoutMs * Pow2(k);
      Ok(settings)
  }

  /** The mutable part of a breaker. */
  datatype Breaker = Breaker(state: State, consecutiveFailures: nat, halfOpenSuccesses: nat, halfOpenInFlight: nat,
                             openedAt: Option<int>, nextAttemptAt: Option<int>, opens: nat, openStreak: nat)

  const INITIAL := Breaker(Closed, 0, 0, 0, None, None, 0, 0)

  // ---- Transitions -------------------------------------------------------------------------------------------

  /** How long the circuit stays open on the `streak`-th consecutive open. */
  function Backoff(s: Settings, streak: nat): int
    requires streak >= 1
  {
    Min(s.maxResetTimeoutMs, s.resetTimeoutMs * Pow2(streak - 1))
  }

  /** Reading the state moves an open circuit whose wait is over to half-open. */
  function Observed(b: Breaker, now: int): Breaker {
    if b.state.Open? && b.nextAttemptAt.Some? && now >= b.nextAttemptAt.value
    then b.(state := HalfOpen, halfOpenSuccesses := 0, halfOpenInFlight := 0)
    else b
  }

  function Opened(s: Settings, b: Breaker, now: int): Breaker {
    b.(state := Open, opens := b.opens + 1, openStreak := b.openStreak + 1,
       openedAt := Some(now), nextAttemptAt := Some(now + Backoff(s, b.openStreak + 1)),
       halfOpenSuccesses := 0, halfOpenInFlight := 0)
  }

  function ClosedAgain(b: Breaker): Breaker {
    INITIAL.(opens := b.opens)
  }

  /** Whether a call arriving at `now` may proceed. */
  predicate Admits(s: Settings, b: Breaker, now: int) {
    var o := Observed(b, now);
    o.state.Closed? || (o.state.HalfOpen? && o.halfOpenInFlight < s.successThreshold)
  }

  function Acquired(s: Settings, b: Breaker, now: int): Breaker {
    var o := Observed(b, now);
    if o.state.HalfOpen? && Admits(s, b, now) then o.(halfOpenInFlight := o.halfOpenInFlight + 1) else o
  }

  function Succeeded(s: Settings, b: Breaker): Breaker {
    if b.state.HalfOpen? then
      var c := b.(halfOpenInFlight := Max(0, b.halfOpenInFlight - 1),
                  halfOpenSuccesses := b.halfOpenSuccesses + 1, openStreak := 0);
      if c.halfOpenSuccesses >= s.successThreshold then ClosedAgain(c) else c
    else b.(consecutiveFailures := 0)
  }

  function Failed(s: Settings, b: Breaker, now: int): Breaker {
    if b.state.HalfOpen? then Opened(s, b, now)
    else
      var c := b.(consecutiveFailures := b.consecutiveFailures + 1);
      if c.consecutiveFailures >= s.failureThreshold then Opened(s, c, now) else c
  }

  // ---- Runs --------------------------------------------------------------------------------------------------

  /** Everything that can happen to a breaker; a reset is the operator's. */
  datatype Event = Read(now: int) | Acquire(now: int) | Succeed(now: int) | Fail(now: int) | Reset(now: int)

  function Apply(s: Settings, b: Breaker, e: Event): Breaker {
    match e
    case Read(now) => Observed(b, now)
    case Acquire(now) => Acquired(s, b, now)
    case Succeed(_) => Succeeded(s, b)
    case Fail(now) => Failed(s, b, now)
    case Reset(_) => ClosedAgain(b)
  }

  function Run(s: Settings, b: Breaker, es: seq<Event>): Breaker {
    if es == [] then b else Apply(s, Run(s, b, es[..|es| - 1]), es[|es| - 1])
  }

  /** How many `Acquire` events of the run were let through. */
  function Admissions(s: Settings, b: Breaker, es: seq<Event>): nat {
    if es == [] then 0
    else
      var e := es[|es| - 1];
      Admissions(s, b, es[..|es| - 1])
      + if e.Acquire? && Admits(s, Run(s, b, es[..|es| - 1]), e.now) then 1 else 0
  }

  /** Length of the unbroken run of failures the log ends in; reads and admissions do not break it. */
  function TrailingFailures(es: seq<Event>): nat {
    if es == [] then 0
    else match es[|es| - 1]
      case Fail(_) => TrailingFailures(es[..|es| - 1]) + 1
      case Succeed(_) => 0
      case Reset(_) => 0
      case _ => TrailingFailures(es[..|es| - 1])
  }

  function Successes(es: seq<Event>): nat {
    if es == [] then 0 else Successes(es[..|es| - 1]) + if es[|es| - 1].Succeed? then 1 else 0
  }

  ghost predicate NoFailure(es: seq<Event>) {
    forall i :: 0 <= i < |es| ==> !es[i].Fail?
  }

  ghost predicate NoReset(es: seq<Event>) {
    forall i :: 0 <= i < |es| ==> !es[i].Reset?
  }

  /** The run stays in state `st` from its start to its end. */
  ghost predicate Stays(s: Settings, b: Breaker, es: seq<Event>, st: State) {
    forall n :: 0 <= n <= |es| ==> Run(s, b, es[..n]).state == st
  }

  ghost predicate Chronological(es: seq<Event>, start: int) {
    && (forall i :: 0 <= i < |es| ==> start <= es[i].now)
    && (forall i, j :: 0 <= i <= j < |es| ==> es[i].now <= es[j].now)
  }

  lemma StaysPrefix(s: Settings, b: Breaker, es: seq<Event>, st: State)
    requires es != []
    ensures Stays(s, b, es, st) <==> Stays(s, b, es[..|es| - 1], st) && Run(s, b, es).state == st
  {
    var p := es[..|es| - 1];
    assert es[..|es|] == es;
    assert forall n :: 0 <= n <= |p| ==> p[..n] == es[..n];
    if Stays(s, b, p, st) && Run(s, b, es).state == st {
      forall n | 0 <= n <= |es| ensures Run(s, b, es[..n]).state == st {
        if n < |es| { assert es[..n] == p[..n]; }
      }
    }
    if Stays(s, b, es, st) {
      assert Run(s, b, es[..|es|]).state == st;
    }
  }

  // ---- Reachable states --------------------------------------------------------------------------------------

  ghost predicate WellFormed(s: Settings, b: Breaker) {
    match b.state
    case Closed =>
      b.consecutiveFailures < s.failureThreshold && b.openStreak == 0 && b.openedAt.None? && b.nextAttemptAt.None?
      && b.halfOpenInFlight == b.halfOpenSuccesses == 0
    case Open =>
      b.openStreak >= 1 && b.openedAt.Some? && b.halfOpenInFlight == b.halfOpenSuccesses == 0
      && b.nextAttemptAt == Some(b.openedAt.value + Backoff(s, b.openStreak))
    case HalfOpen =>
      b.openedAt.Some? && b.nextAttemptAt.Some? && b.halfOpenSuccesses < Max(1, s.successThreshold)
      && b.halfOpenInFlight <= Max(0, s.successThreshold)
      && s.resetTimeoutMs <= b.nextAttemptAt.value - b.openedAt.value <= s.maxResetTimeoutMs
  }

  lemma BackoffInRange(s: Settings, streak: nat)
    requires s.Valid() && streak >= 1
    ensures s.resetTimeoutMs <= Backoff(s, streak) <= s.maxResetTimeoutMs
  {
    assert s.resetTimeoutMs * 1 <= s.resetTimeoutMs * Pow2(streak - 1);
  }

  lemma BackoffMonotone(s: Settings, k: nat, m: nat)
    requires s.Valid() && 1 <= k <= m
    ensures Backoff(s, k) <= Backoff(s, m)
  {
    Pow2Monotone(k - 1, m - 1);
    assert s.resetTimeoutMs * Pow2(k - 1) <= s.resetTimeoutMs * Pow2(m - 1);
  }

  lemma {:induction false} ReachableIsWellFormed(s: Settings, b: Breaker, es: seq<Event>)
    requires s.Valid() && WellFormed(s, b)
    ensures WellFormed(s, Run(s, b, es))
  {
    if es != [] {
      ReachableIsWellFormed(s, b, es[..|es| - 1]);
      var c := Run(s, b, es[..|es| - 1]);
      if c.state.Open? { BackoffInRange(s, c.openStreak); }
    }
  }

  /** From construction on, whatever happens: the wait of a tripped circuit lies in [reset, ceiling]. */
  lemma {:induction false} WaitIsBounded(s: Settings, es: seq<Event>)
    requires s.Valid()
    ensures var b := Run(s, INITIAL, es);
            if b.state.Closed? then b.nextAttemptAt.None? && b.consecutiveFailures < s.failureThreshold
            else b.openedAt.Some? && b.nextAttemptAt.Some?
                 && s.resetTimeoutMs <= b.nextAttemptAt.value - b.openedAt.value <= s.maxResetTimeoutMs
    ensures var b := Run(s, INITIAL, es);
            b.state.Open? ==>
              b.openStreak >= 1 && b.openedAt.Some?
              && b.nextAttemptAt == Some(b.openedAt.value
                                         + Min(s.maxResetTimeoutMs, s.resetTimeoutMs * Pow2(b.openStreak - 1)))
  {
    ReachableIsWellFormed(s, INITIAL, es);
    var b := Run(s, INITIAL, es);
    if b.state.Open? { BackoffInRange(s, b.openStreak); }
  }

  /** How many events of the run raised the streak. */
  function Rises(s: Settings, b: Breaker, es: seq<Event>): nat {
    if es == [] then 0
    else
      var before := es[..|es| - 1];
      Rises(s, b, before) + if Run(s, b, es).openStreak > Run(s, b, before).openStreak then 1 else 0
  }

  /** The count of opens is never reset and goes up by one with every rise of the streak. */
  lemma {:induction false} OpensAreCounted(s: Settings, b: Breaker, es: seq<Event>)
    ensures Run(s, b, es).opens == b.opens + Rises(s, b, es)
  {
    if es != [] { OpensAreCounted(s, b, es[..|es| - 1]); }
  }

  /** An open circuit lets a call through iff its wait is over, and that call is the first trial of a new episode. */
  lemma OpenAdmitsIff(s: Settings, b: Breaker, now: int)
    requires s.Valid() && s.successThreshold >= 1 && WellFormed(s, b) && b.state.Open?
    ensures Admits(s, b, now) <==> now >= b.nextAttemptAt.value
    ensures Admits(s, b, now) ==>
              var c := Apply(s, b, Acquire(now));
              && c == b.(state := HalfOpen, halfOpenInFlight := 1) && c.halfOpenSuccesses == 0
              && Apply(s, b, Read(now)) == b.(state := HalfOpen)
    ensures !Admits(s, b, now) ==> Apply(s, b, Acquire(now)) == b == Apply(s, b, Read(now))
  {
  }

  // ---- One closed episode ------------------------------------------------------------------------------------

  /** Neither the log nor any prefix of it ends in `k` failures in a row. */
  ghost predicate RowsBelow(es: seq<Event>, k: int) {
    TrailingFailures(es) < k && (es != [] ==> RowsBelow(es[..|es| - 1], k))
  }

  /**
   * A freshly closed circuit is still closed after a sequence of events exactly when no prefix ends in
   * `failureThreshold` failures in a row, and it opens at the very event that completes such a run.
   */
  lemma {:induction false} OpensExactlyAtThreshold(s: Settings, b: Breaker, es: seq<Event>)
    requires s.Valid() && b.state.Closed? && b.consecutiveFailures == 0
    ensures Stays(s, b, es, Closed) <==> RowsBelow(es, s.failureThreshold)
    ensures Stays(s, b, es, Closed) ==> Run(s, b, es).consecutiveFailures == TrailingFailures(es)
    ensures es != [] && Stays(s, b, es[..|es| - 1], Closed) && !Stays(s, b, es, Closed) ==>
              var c := Run(s, b, es);
              c.state.Open? && c.openedAt == Some(es[|es| - 1].now) && TrailingFailures(es) == s.failureThreshold
  {
    if es != [] {
      var p := es[..|es| - 1];
      OpensExactlyAtThreshold(s, b, p);
      StaysPrefix(s, b, es, Closed);
      if Stays(s, b, p, Closed) { assert p[..|p|] == p; }
    }
  }

  // ---- One open episode --------------------------------------------------------------------------------------

  /**
   * Until an operator resets it, while every event is earlier than `nextAttemptAt` nothing is admitted, the circuit
   * stays open, and late answers of calls already in flight can only push the next attempt further out.
   */
  lemma {:induction false} OpenAdmitsNothingEarly(s: Settings, b: Breaker, es: seq<Event>)
    requires s.Valid() && WellFormed(s, b) && b.state.Open?
    requires Chronological(es, b.openedAt.value) && NoReset(es)
    requires forall i :: 0 <= i < |es| ==> es[i].now < b.nextAttemptAt.value
    ensures Stays(s, b, es, Open) && Admissions(s, b, es) == 0
    ensures var c := Run(s, b, es);
            c.openStreak >= b.openStreak && c.nextAttemptAt.Some? && c.nextAttemptAt.value >= b.nextAttemptAt.value
            && c.openedAt.Some? && (c.openedAt == b.openedAt || (es != [] && c.openedAt.value <= es[|es| - 1].now))
  {
    if es != [] {
      var p := es[..|es| - 1];
      OpenAdmitsNothingEarly(s, b, p);
      StaysPrefix(s, b, es, Open);
      assert p[..|p|] == p;
      ReachableIsWellFormed(s, b, p);
      var c := Run(s, b, p);
      BackoffMonotone(s, c.openStreak, c.openStreak + 1);
      BackoffMonotone(s, b.openStreak, c.openStreak + 1);
    }
  }

  /** The failures in a row the log ends in, continuing `before` of them if no success breaks the row. */
  function Row(before: nat, es: seq<Event>): nat {
    if es == [] then before
    else if es[|es| - 1].Fail? then Row(before, es[..|es| - 1]) + 1
    else 0
  }

  /** How many failures of the log make or lengthen a row of at least `threshold`. */
  function Climbs(threshold: int, before: nat, es: seq<Event>): nat {
    if es == [] then 0
    else
      Climbs(threshold, before, es[..|es| - 1])
      + if es[|es| - 1].Fail? && Row(before, es) >= threshold then 1 else 0
  }

  ghost predicate LateAnswers(es: seq<Event>) {
    forall i :: 0 <= i < |es| ==> es[i].Succeed? || es[i].Fail?
  }

  /** One late answer climbs a rung iff it is a failure that completes or lengthens a row; a success ends the row. */
  lemma LateAnswerClimbsIff(s: Settings, b: Breaker, e: Event)
    requires b.state.Open? && (e.Succeed? || e.Fail?)
    ensures var c := Apply(s, b, e);
            && c.state.Open?
            && (c.openStreak == b.openStreak + 1 <==> e.Fail? && b.consecutiveFailures + 1 >= s.failureThreshold)
            && (c.openStreak != b.openStreak + 1 ==> c.openStreak == b.openStreak && c.nextAttemptAt == b.nextAttemptAt)
            && (e.Succeed? ==> c.consecutiveFailures == 0)
  {
  }

  /**
   * The widening ladder counts failures, not outages: answers to calls already in flight when the circuit opened
   * climb exactly one rung for every failure in a row that has reached the threshold, although no trial was made.
   */
  lemma {:induction false} LateFailuresWiden(s: Settings, b: Breaker, es: seq<Event>)
    requires b.state.Open? && LateAnswers(es)
    ensures var c := Run(s, b, es);
            && c.state.Open? && c.consecutiveFailures == Row(b.consecutiveFailures, es)
            && c.openStreak == b.openStreak + Climbs(s.failureThreshold, b.consecutiveFailures, es)
    ensures es != [] && es[|es| - 1].Fail? && Row(b.consecutiveFailures, es) >= s.failureThreshold ==>
              Run(s, b, es).nextAttemptAt == Some(es[|es| - 1].now + Backoff(s, Run(s, b, es).openStreak))
  {
    if es != [] {
      var p := es[..|es| - 1];
      LateFailuresWiden(s, b, p);
      LateAnswerClimbsIff(s, Run(s, b, p), es[|es| - 1]);
    }
  }

  /** It does happen: `k` calls above the threshold were in flight and all fail; the streak of one outage is 1 + k. */
  lemma {:induction false} OutageClimbs(s: Settings, now: int, n: nat) returns (es: seq<Event>)
    requires s.Valid()
    ensures |es| == n && forall i :: 0 <= i < |es| ==> es[i] == Fail(now)
    ensures var b := Run(s, INITIAL, es);
            && b.consecutiveFailures == n && b.openStreak == Max(0, n + 1 - s.failureThreshold)
            && b.state == if n >= s.failureThreshold then Open else Closed
  {
    if n == 0 {
      es := [];
    } else {
      var p := OutageClimbs(s, now, n - 1);
      es := p + [Fail(now)];
      assert es[..|p|] == p;
    }
  }

  // ---- One half-open episode ---------------------------------------------------------------------------------

  /**
   * A circuit that has just become half-open stays so exactly while there is no failure and fewer than
   * `successThreshold` successes; the success that completes the count closes it, any failure re-opens it: one rung
   * higher if no trial succeeded, on the lowest rung if one did. Only an operator's reset ends the episode otherwise.
   */
  lemma {:induction false} ClosesOnlyAfterSuccesses(s: Settings, b: Breaker, es: seq<Event>)
    requires s.Valid() && s.successThreshold >= 1 && b.state.HalfOpen? && b.halfOpenSuccesses == 0
    ensures Stays(s, b, es, HalfOpen) <==> NoFailure(es) && NoReset(es) && Successes(es) < s.successThreshold
    ensures Stays(s, b, es, HalfOpen) ==>
              var c := Run(s, b, es);
              && c.halfOpenSuccesses == Successes(es) && c.consecutiveFailures == b.consecutiveFailures
              && c.openStreak == if Successes(es) > 0 then 0 else b.openStreak
    ensures es != [] && Stays(s, b, es[..|es| - 1], HalfOpen) && !Stays(s, b, es, HalfOpen) ==>
              var c := Run(s, b, es);
              if es[|es| - 1].Reset? then c == ClosedAgain(c)
              else if NoFailure(es) then Successes(es) == s.successThreshold && c == ClosedAgain(c)
              else c.state.Open? && c.openedAt == Some(es[|es| - 1].now)
                   && c.consecutiveFailures == b.consecutiveFailures
                   && c.openStreak == (if Successes(es) > 0 then 1 else b.openStreak + 1)
                   && c.nextAttemptAt == Some(es[|es| - 1].now
                                              + Min(s.maxResetTimeoutMs, s.resetTimeoutMs * Pow2(c.openStreak - 1)))
  {
    if es != [] {
      var p := es[..|es| - 1];
      ClosesOnlyAfterSuccesses(s, b, p);
      StaysPrefix(s, b, es, HalfOpen);
      assert forall i :: 0 <= i < |p| ==> p[i] == es[i];
      assert NoFailure(es) <==> NoFailure(p) && !es[|es| - 1].Fail?;
      assert NoReset(es) <==> NoReset(p) && !es[|es| - 1].Reset?;
      if Stays(s, b, p, HalfOpen) { assert p[..|p|] == p; }
    }
  }

  /**
   * One half-open episode lets at most 2 * successThreshold - 1 calls through: every recorded answer gives a slot
   * back, and the answer that completes the count ends the episode.
   */
  lemma {:induction false} TrialBound(s: Settings, b: Breaker, es: seq<Event>)
    requires s.Valid() && s.successThreshold >= 1
    requires b.state.HalfOpen? && b.halfOpenSuccesses == 0 && b.halfOpenInFlight == 0
    requires Stays(s, b, es, HalfOpen)
    ensures Admissions(s, b, es) <= Run(s, b, es).halfOpenInFlight + Successes(es)
    ensures Run(s, b, es).halfOpenInFlight <= s.successThreshold
    ensures Admissions(s, b, es) <= 2 * s.successThreshold - 1
  {
    ClosesOnlyAfterSuccesses(s, b, es);
    if es != [] {
      var p := es[..|es| - 1];
      StaysPrefix(s, b, es, HalfOpen);
      TrialBound(s, b, p);
      assert p[..|p|] == p;
    }
  }

  /**
   * The bound is reached for every threshold: first `fill` admissions, then `extra` times an answer followed by an
   * admission, all at `now`.
   */
  lemma {:induction false} TrialBoundIsReached(s: Settings, b: Breaker, now: int, fill: nat, extra: nat)
    returns (es: seq<Event>)
    requires s.Valid() && b.state.HalfOpen? && b.halfOpenSuccesses == 0 && b.halfOpenInFlight == 0
    requires fill <= s.successThreshold && extra < s.successThreshold && (extra > 0 ==> fill == s.successThreshold)
    ensures Stays(s, b, es, HalfOpen) && Admissions(s, b, es) == fill + extra
    ensures Run(s, b, es).halfOpenInFlight == fill && Run(s, b, es).halfOpenSuccesses == extra
  {
    if extra > 0 {
      var p := TrialBoundIsReached(s, b, now, fill, extra - 1);
      OneMoreAnswer(s, b, p, now, extra - 1);
      es := p + [Succeed(now)] + [Acquire(now)];
    } else if fill > 0 {
      var p := TrialBoundIsReached(s, b, now, fill - 1, 0);
      OneMoreTrial(s, b, p, now, fill - 1);
      es := p + [Acquire(now)];
    } else {
      es := [];
    }
  }

  lemma OneMoreTrial(s: Settings, b: Breaker, p: seq<Event>, now: int, n: nat)
    requires Stays(s, b, p, HalfOpen) && Admissions(s, b, p) == n < s.successThreshold
    requires Run(s, b, p).halfOpenInFlight == n && Run(s, b, p).halfOpenSuccesses == 0
    ensures var q, c := p + [Acquire(now)], Run(s, b, p + [Acquire(now)]);
            Stays(s, b, q, HalfOpen) && Admissions(s, b, q) == n + 1
            && c.halfOpenInFlight == n + 1 && c.halfOpenSuccesses == 0
  {
    assert p[..|p|] == p;
    OneMoreEvent(s, b, p, Acquire(now), HalfOpen);
  }

  lemma OneMoreAnswer(s: Settings, b: Breaker, p: seq<Event>, now: int, n: nat)
    requires Stays(s, b, p, HalfOpen) && n + 1 < s.successThreshold
    requires Run(s, b, p).halfOpenInFlight == s.successThreshold && Run(s, b, p).halfOpenSuccesses == n
    ensures var q := p + [Succeed(now)] + [Acquire(now)];
            var c := Run(s, b, q);
            Stays(s, b, q, HalfOpen) && Admissions(s, b, q) == Admissions(s, b, p) + 1
            && c.halfOpenInFlight == s.successThreshold && c.halfOpenSuccesses == n + 1
  {
    var m := p + [Succeed(now)];
    assert p[..|p|] == p;
    OneMoreEvent(s, b, p, Succeed(now), HalfOpen);
    assert m[..|m|] == m;
    OneMoreEvent(s, b, m, Acquire(now), HalfOpen);
  }

  lemma OneMoreEvent(s: Settings, b: Breaker, p: seq<Event>, e: Event, st: State)
    requires Stays(s, b, p, st)
    ensures var c := Run(s, b, p);
            && Run(s, b, p + [e]) == Apply(s, c, e)
            && Admissions(s, b, p + [e]) == Admissions(s, b, p) + (if e.Acquire? && Admits(s, c, e.now) then 1 else 0)
            && (Stays(s, b, p + [e], st) <==> Apply(s, c, e).state == st)
  {
    assert (p + [e])[..|p|] == p;
    StaysPrefix(s, b, p + [e], st);
  }

  // ---- The class ---------------------------------------------------------------------------------------------

  class CircuitBreaker {
    const settings: Settings
    var state: State
    var consecutiveFailures: nat
    var halfOpenSuccesses: nat
    var halfOpenInFlight: nat
    var openedAt: Option<int>
    var nextAttemptAt: Option<int>
    var opens: nat
    var openStreak: nat

    ghost function Model(): Breaker
      reads this
    {
      Breaker(state, consecutiveFailures, halfOpenSuccesses, halfOpenInFlight, openedAt, nextAttemptAt,
              opens, openStreak)
    }

    constructor (settings: Settings)
      ensures this.settings == settings && Model() == INITIAL
    {
      this.settings := settings;
      state, consecutiveFailures, halfOpenSuccesses, halfOpenInFlight := Closed, 0, 0, 0;
      openedAt, nextAttemptAt, opens, openStreak := None, None, 0, 0;
    }

    method ReadState(now: int) returns (st: State)
      modifies this
      ensures Model() == Observed(old(Model()), now) && st == Model().state
    {
      if state == Open && nextAttemptAt.Some? && now >= nextAttemptAt.value {
        state := HalfOpen;
        halfOpenSuccesses := 0;
        halfOpenInFlight := 0;
      }
      st := state;
    }

    method TryAcquire(now: int) returns (ok: bool)
      modifies this
      ensures ok == Admits(settings, old(Model()), now)
      ensures Model() == Acquired(settings, old(Model()), now)
    {
      var st := ReadState(now);
      if st == Closed { return true; }
      if st == Open { return false; }
      if halfOpenInFlight >= settings.successThreshold { return false; }
      halfOpenInFlight := halfOpenInFlight + 1;
      ok := true;
    }

    method RecordSuccess()
      modifies this
      ensures Model() == Succeeded(settings, old(Model()))
    {
      if state == HalfOpen {
        halfOpenInFlight := Max(0, halfOpenInFlight - 1);
        halfOpenSuccesses := halfOpenSuccesses + 1;
        openStreak := 0;
        if halfOpenSuccesses >= settings.successThreshold {
          Close();
        }
        return;
      }
      consecutiveFailures := 0;
    }

    method RecordFailure(now: int)
      modifies this
      ensures Model() == Failed(settings, old(Model()), now)
    {
      if state == HalfOpen {
        halfOpenInFlight := Max(0, halfOpenInFlight - 1);
        Trip(now);
        return;
      }
      consecutiveFailures := consecutiveFailures + 1;
      if consecutiveFailures >= settings.failureThreshold {
        Trip(now);
      }
    }

    method Reset()
      modifies this
      ensures Model() == ClosedAgain(old(Model()))
    {
      Close();
    }

    method Trip(now: int)
      modifies this
      ensures Model() == Opened(settings, old(Model()), now)
    {
      state := Open;
      opens := opens + 1;
      openStreak := openStreak + 1;
      var backoff := Min(settings.maxResetTimeoutMs, settings.resetTimeoutMs * Pow2(openStreak - 1));
      openedAt := Some(now);
      nextAttemptAt := Some(now + backoff);
      halfOpenSuccesses := 0;
      halfOpenInFlight := 0;
    }

    method Close()
      modifies this
      ensures Model() == ClosedAgain(old(Model()))
    {
      state := Closed;
      consecutiveFailures := 0;
      halfOpenSuccesses := 0;
      halfOpenInFlight := 0;
      openedAt := None;
      nextAttemptAt := None;
      openStreak := 0;
    }
  }
}
