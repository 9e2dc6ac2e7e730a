/**
 * The process-wide FIFO pacer. The drain loop suspends at every sleep, so the model is a transition system whose
 * steps are calls to acquire, single iterations of the loop, (possibly early) wake-ups and shutdown sweeps; the
 * class runs a whole segment between two suspensions and is shown to be a sequence of those steps.
 */
module RateLimiters {
  import opened Common

  datatype Settings = Settings(minIntervalMs: int, maxQueueDepth: int)
  {
    ghost predicate Valid() {
      minIntervalMs >= 0 && maxQueueDepth >= 1
    }
  }

  /** Where the drain loop is: not running, running, or suspended in `sleep`. */
  datatype Phase = Idle | Looping | Asleep

  datatype Pacer = Pacer(queue: seq<nat>, phase: Phase, lastDispatchAt: Option<int>, dispatched: nat, rejected: nat,
                         dispatchTimes: seq<int>)

  const INITIAL := Pacer([], Idle, None, 0, 0, [])

  const MAX_DISPATCH_HISTORY := 20_000

  // ---- Transitions -------------------------------------------------------------------------------------------

  predicate Full(s: Settings, p: Pacer) {
    |p.queue| >= s.maxQueueDepth
  }

  function Asked(s: Settings, p: Pacer, id: nat): Pacer {
    if Full(s, p) then p.(rejected := p.rejected + 1)
    else p.(queue := p.queue + [id], phase := if p.phase.Idle? then Looping else p.phase)
  }

  /** Whether a dispatch at `now` would come too soon after the last one. */
  predicate TooSoon(s: Settings, p: Pacer, now: int) {
    p.lastDispatchAt.Some? && s.minIntervalMs - (now - p.lastDispatchAt.value) > 0
  }

  predicate Dispatches(s: Settings, p: Pacer, checkedAt: int) {
    p.phase.Looping? && p.queue != [] && !TooSoon(s, p, checkedAt)
  }

  /** One trip round the loop; the clock is read once for the wait and again for the dispatch. */
  function Iterated(s: Settings, p: Pacer, checkedAt: int, at: int): Pacer {
    if !p.phase.Looping? then p
    else if p.queue == [] then p.(phase := Idle)
    else if TooSoon(s, p, checkedAt) then p.(phase := Asleep)
    else Pacer(p.queue[1..], Looping, Some(at), p.dispatched + 1, p.rejected,
               if |p.dispatchTimes| < MAX_DISPATCH_HISTORY then p.dispatchTimes + [at] else p.dispatchTimes)
  }

  // ---- Runs --------------------------------------------------------------------------------------------------

  datatype Step = Ask(id: nat) | Iterate(checkedAt: int, at: int) | Wake | Sweep

  function Apply(s: Settings, p: Pacer, step: Step): Pacer {
    match step
    case Ask(id) => Asked(s, p, id)
    case Iterate(checkedAt, at) => Iterated(s, p, checkedAt, at)
    case Wake => if p.phase.Asleep? then p.(phase := Looping) else p
    case Sweep => p.(queue := [])
  }

  function Run(s: Settings, p: Pacer, steps: seq<Step>): Pacer {
    if steps == [] then p else Apply(s, Run(s, p, steps[..|steps| - 1]), steps[|steps| - 1])
  }

  /** How a queued caller's wait ended. */
  datatype Fate = Granted(at: int) | SweptAway

  datatype Resolution = Resolution(id: nat, fate: Fate)

  function SweepAll(queue: seq<nat>): seq<Resolution> {
    seq(|queue|, i requires 0 <= i < |queue| => Resolution(queue[i], SweptAway))
  }

  /** Every promise the limiter settled after queueing it, in the order it settled them. */
  function Resolutions(s: Settings, steps: seq<Step>): seq<Resolution> {
    if steps == [] then []
    else
      var step, p := steps[|steps| - 1], Run(s, INITIAL, steps[..|steps| - 1]);
      var before := Resolutions(s, steps[..|steps| - 1]);
      match step
      case Iterate(checkedAt, at) =>
        if Dispatches(s, p, checkedAt) then before + [Resolution(p.queue[0], Granted(at))] else before
      case Sweep => before + SweepAll(p.queue)
      case _ => before
  }

  /** The callers that were queued rather than refused, in arrival order. */
  function Queued(s: Settings, steps: seq<Step>): seq<nat> {
    if steps == [] then []
    else
      var step, before := steps[|steps| - 1], Queued(s, steps[..|steps| - 1]);
      if step.Ask? && !Full(s, Run(s, INITIAL, steps[..|steps| - 1])) then before + [step.id] else before
  }

  function Calls(steps: seq<Step>): nat {
    if steps == [] then 0 else Calls(steps[..|steps| - 1]) + if steps[|steps| - 1].Ask? then 1 else 0
  }

  function Ids(rs: seq<Resolution>): seq<nat> {
    seq(|rs|, i requires 0 <= i < |rs| => rs[i].id)
  }

  /** The full dispatch log, including what the bounded history no longer records. */
  function GrantTimes(rs: seq<Resolution>): seq<int> {
    if rs == [] then []
    else
      var r, before := rs[|rs| - 1], GrantTimes(rs[..|rs| - 1]);
      if r.fate.Granted? then before + [r.fate.at] else before
  }

  /** The clock readings of a run never go backwards. */
  ghost predicate Chronological(steps: seq<Step>) {
    && (forall i :: 0 <= i < |steps| && steps[i].Iterate? ==> steps[i].checkedAt <= steps[i].at)
    && (forall i, j :: 0 <= i < j < |steps| && steps[i].Iterate? && steps[j].Iterate? ==>
          steps[i].at <= steps[j].checkedAt)
  }

  ghost predicate Spaced(times: seq<int>, gap: int) {
    forall i :: 0 < i < |times| ==> times[i - 1] + gap <= times[i]
  }

  /** The part of the dispatch log the bounded history keeps. */
  function Recorded(times: seq<int>): seq<int> {
    times[..Min(|times|, MAX_DISPATCH_HISTORY)]
  }

  // ---- Helper lemmas -----------------------------------------------------------------------------------------

  lemma GrantTimesOne(rs: seq<Resolution>, r: Resolution)
    ensures GrantTimes(rs + [r]) == if r.fate.Granted? then GrantTimes(rs) + [r.fate.at] else GrantTimes(rs)
  {
    assert (rs + [r])[..|rs|] == rs;
  }

  lemma {:induction false} SweepGrantsNothing(rs: seq<Resolution>, swept: seq<Resolution>)
    requires forall i :: 0 <= i < |swept| ==> swept[i].fate.SweptAway?
    ensures GrantTimes(rs + swept) == GrantTimes(rs)
  {
    if swept == [] {
      assert rs + swept == rs;
    } else {
      var before, last := swept[..|swept| - 1], swept[|swept| - 1];
      SweepGrantsNothing(rs, before);
      assert rs + swept == (rs + before) + [last];
      GrantTimesOne(rs + before, last);
    }
  }

  // ---- Conservation, order and wake-ups ----------------------------------------------------------------------

  /**
   * First in, first out, nobody lost: the callers settled so far followed by the callers still waiting are the
   * queued callers in arrival order, and every call was either queued or refused.
   */
  lemma {:induction false} FifoConservation(s: Settings, steps: seq<Step>)
    requires s.Valid()
    ensures var p := Run(s, INITIAL, steps);
            && Queued(s, steps) == Ids(Resolutions(s, steps)) + p.queue
            && Calls(steps) == |Queued(s, steps)| + p.rejected
            && |p.queue| <= s.maxQueueDepth
  {
    if steps != [] {
      var before, step := steps[..|steps| - 1], steps[|steps| - 1];
      FifoConservation(s, before);
      var p := Run(s, INITIAL, before);
      if step.Sweep? {
        assert Ids(Resolutions(s, before) + SweepAll(p.queue)) == Ids(Resolutions(s, before)) + p.queue;
      }
    }
  }

  /** A caller is refused iff exactly `maxQueueDepth` others wait; otherwise it waits behind them. */
  lemma RefusedIffFull(s: Settings, steps: seq<Step>, id: nat)
    requires s.Valid()
    ensures var p, q := Run(s, INITIAL, steps), Run(s, INITIAL, steps + [Ask(id)]);
            && (q.rejected == p.rejected + 1 <==> |p.queue| == s.maxQueueDepth)
            && q.queue == if |p.queue| == s.maxQueueDepth then p.queue else p.queue + [id]
    ensures Queued(s, steps + [Ask(id)])
            == if |Run(s, INITIAL, steps).queue| == s.maxQueueDepth then Queued(s, steps) else Queued(s, steps) + [id]
  {
    FifoConservation(s, steps);
    assert (steps + [Ask(id)])[..|steps|] == steps;
  }

  /**
   * For all settings any number of callers up to the depth comes to wait with nobody refused; if the interval is not
   * zero, while the drain loop sleeps after serving one more.
   */
  lemma {:induction false} QueueFills(s: Settings, n: nat) returns (steps: seq<Step>)
    requires s.Valid() && n <= s.maxQueueDepth
    ensures Chronological(steps) && ReadBy(steps, 0)
    ensures var p := Run(s, INITIAL, steps);
            && |p.queue| == n && p.rejected == 0
            && (s.minIntervalMs >= 1 && n >= 1 ==> p.phase.Asleep? && p.dispatched == 1)
  {
    if n == 0 {
      steps := [];
    } else if n == 1 && s.minIntervalMs >= 1 {
      steps := OneServedOneWaits(s);
    } else {
      var before := QueueFills(s, n - 1);
      steps := before + [Ask(n)];
      assert steps[..|before|] == before;
    }
  }

  /** The first caller is served at once; the loop ends, and the next caller makes it sleep. */
  lemma OneServedOneWaits(s: Settings) returns (steps: seq<Step>)
    requires s.Valid() && s.minIntervalMs >= 1
    ensures Chronological(steps) && ReadBy(steps, 0)
    ensures Run(s, INITIAL, steps) == Pacer([1], Asleep, Some(0), 1, 0, [0])
  {
    var a, b, c := [Ask(0)], [Ask(0)] + [Iterate(0, 0)], [Ask(0)] + [Iterate(0, 0)] + [Iterate(0, 0)];
    var d := c + [Ask(1)];
    steps := d + [Iterate(0, 0)];
    assert a[..0] == [] && b[..1] == a && c[..2] == b && d[..3] == c && steps[..4] == d;
    assert Run(s, INITIAL, a) == Pacer([0], Looping, None, 0, 0, []);
    assert Run(s, INITIAL, b) == Pacer([], Looping, Some(0), 1, 0, [0]);
    assert Run(s, INITIAL, c) == Pacer([], Idle, Some(0), 1, 0, [0]);
    assert Run(s, INITIAL, d) == Pacer([1], Looping, Some(0), 1, 0, [0]);
  }

  lemma RecordedOne(times: seq<int>, at: int)
    ensures Recorded(times + [at])
            == if |times| < MAX_DISPATCH_HISTORY then Recorded(times) + [at] else Recorded(times)
    ensures |Recorded(times)| == Min(|times|, MAX_DISPATCH_HISTORY)
  {
  }

  /** Dispatch accounting: the counter is the number of grants, the recorded history their first 20,000 times. */
  lemma {:induction false} DispatchesAreGrants(s: Settings, steps: seq<Step>)
    ensures var p, times := Run(s, INITIAL, steps), GrantTimes(Resolutions(s, steps));
            && p.dispatched == |times|
            && p.dispatchTimes == times[..Min(|times|, 20_000)]
            && p.lastDispatchAt == if times == [] then None else Some(times[|times| - 1])
  {
    if steps != [] {
      var before, step := steps[..|steps| - 1], steps[|steps| - 1];
      DispatchesAreGrants(s, before);
      var p, rs := Run(s, INITIAL, before), Resolutions(s, before);
      match step
      case Sweep => SweepGrantsNothing(rs, SweepAll(p.queue));
      case Iterate(checkedAt, at) =>
        if Dispatches(s, p, checkedAt) {
          GrantTimesOne(rs, Resolution(p.queue[0], Granted(at)));
          RecordedOne(GrantTimes(rs), at);
        }
      case _ =>
    }
  }

  /** No lost wake-up: whenever the loop is not running, a waiting caller implies a sleeping drainer. */
  lemma {:induction false} WaitingImpliesDrainer(s: Settings, steps: seq<Step>)
    ensures var p := Run(s, INITIAL, steps); p.queue != [] ==> !p.phase.Idle?
  {
    if steps != [] { WaitingImpliesDrainer(s, steps[..|steps| - 1]); }
  }

  /**
   * When a sleeping drainer wakes, it serves the oldest caller iff nobody was served before or the interval since the
   * last dispatch has passed; one that wakes early sleeps on.
   */
  lemma WakingServesTheOldest(s: Settings, steps: seq<Step>, checkedAt: int, at: int)
    requires Run(s, INITIAL, steps).queue != []
    requires !Run(s, INITIAL, steps).phase.Looping?
    ensures var p, times := Run(s, INITIAL, steps), GrantTimes(Resolutions(s, steps));
            var next := steps + [Wake] + [Iterate(checkedAt, at)];
            if times == [] || checkedAt >= times[|times| - 1] + s.minIntervalMs
            then Resolutions(s, next) == Resolutions(s, steps) + [Resolution(p.queue[0], Granted(at))]
            else Resolutions(s, next) == Resolutions(s, steps) && Run(s, INITIAL, next) == p
  {
    WaitingImpliesDrainer(s, steps);
    DispatchesAreGrants(s, steps);
    var woken := steps + [Wake];
    assert woken[..|steps|] == steps;
    assert (woken + [Iterate(checkedAt, at)])[..|woken|] == woken;
  }

  /**
   * One loop at a time: a drain loop starts only for a caller that is queued, and ends only where it finds the queue
   * empty; not even a sweep ends a sleeping one.
   */
  lemma LoopEndsIff(s: Settings, p: Pacer, step: Step)
    ensures p.phase.Idle? ==> (!Apply(s, p, step).phase.Idle? <==> step.Ask? && |p.queue| < s.maxQueueDepth)
    ensures !p.phase.Idle? ==>
              (Apply(s, p, step).phase.Idle? <==> step.Iterate? && p.phase.Looping? && p.queue == [])
    ensures step.Sweep? ==> Apply(s, p, step) == p.(queue := [])
  {
  }

  // ---- Pacing ------------------------------------------------------------------------------------------------

  ghost predicate ReadBy(steps: seq<Step>, now: int) {
    forall i :: 0 <= i < |steps| && steps[i].Iterate? ==> steps[i].at <= now
  }

  lemma {:induction false} GrantsByNow(s: Settings, steps: seq<Step>, now: int)
    requires ReadBy(steps, now)
    ensures AtMost(GrantTimes(Resolutions(s, steps)), now)
  {
    if steps != [] {
      var before, step := steps[..|steps| - 1], steps[|steps| - 1];
      GrantsByNow(s, before, now);
      var p, rs := Run(s, INITIAL, before), Resolutions(s, before);
      match step
      case Sweep => SweepGrantsNothing(rs, SweepAll(p.queue));
      case Iterate(checkedAt, at) =>
        if Dispatches(s, p, checkedAt) { GrantTimesOne(rs, Resolution(p.queue[0], Granted(at))); }
      case _ =>
    }
  }

  /** Whatever the interleaving, consecutive dispatches are at least the minimum interval apart. */
  lemma {:induction false} DispatchesAreSpaced(s: Settings, steps: seq<Step>)
    requires s.Valid() && Chronological(steps)
    ensures Spaced(GrantTimes(Resolutions(s, steps)), s.minIntervalMs)
  {
    if steps != [] {
      var before, step := steps[..|steps| - 1], steps[|steps| - 1];
      DispatchesAreSpaced(s, before);
      var p, rs := Run(s, INITIAL, before), Resolutions(s, before);
      match step
      case Sweep => SweepGrantsNothing(rs, SweepAll(p.queue));
      case Iterate(checkedAt, at) =>
        if Dispatches(s, p, checkedAt) {
          GrantTimesOne(rs, Resolution(p.queue[0], Granted(at)));
          DispatchesAreGrants(s, before);
        }
      case _ =>
    }
  }

  lemma {:induction false} SpacedSpan(times: seq<int>, gap: int, lo: int, hi: int)
    requires gap >= 0 && Spaced(times, gap) && times != [] && lo <= times[|times| - 1] < hi
    ensures (CountIn(times, lo, hi) - 1) * gap <= times[|times| - 1] - lo
  {
    var before := times[..|times| - 1];
    if before == [] {
      assert CountIn(times, lo, hi) == 1;
    } else if lo <= before[|before| - 1] {
      SpacedSpan(before, gap, lo, hi);
      var n := CountIn(before, lo, hi);
      assert n * gap == (n - 1) * gap + gap;
    } else {
      SpacedIsSorted(before, gap);
      CountInNone(before, lo, hi);
    }
  }

  lemma {:induction false} SpacedIsSorted(times: seq<int>, gap: int)
    requires gap >= 0 && Spaced(times, gap)
    ensures NonDecreasing(times)
  {
    if times != [] {
      var before := times[..|times| - 1];
      SpacedIsSorted(before, gap);
      forall i | 0 <= i < |times| ensures times[i] <= times[|times| - 1] {
        if i < |before| { assert before[i] <= before[|before| - 1] <= times[|times| - 1]; }
      }
    }
  }

  /** Any window of length w over spaced timestamps holds at most ceil(w / gap) of them. */
  lemma {:induction false} SpacedWindow(times: seq<int>, gap: int, lo: int, w: nat)
    requires gap >= 1 && Spaced(times, gap)
    ensures CountIn(times, lo, lo + w) <= (w + gap - 1) / gap
  {
    if times != [] {
      var last := times[|times| - 1];
      if lo <= last < lo + w {
        SpacedSpan(times, gap, lo, lo + w);
        var n := CountIn(times, lo, lo + w);
        assert (n - 1) * gap <= w - 1;
        CeilingBound(n, gap, w);
      } else {
        SpacedWindow(times[..|times| - 1], gap, lo, w);
      }
    }
  }

  lemma CeilingBound(n: nat, gap: int, w: nat)
    requires gap >= 1 && (n - 1) * gap <= w - 1
    ensures n <= (w + gap - 1) / gap
  {
    var q := (w + gap - 1) / gap;
    assert q * gap >= w;
    FactorsCompare(n - 1, q, gap);
  }

  /** The pacing promise over a whole run: at most ceil(w / minIntervalMs) dispatches in any window of length w. */
  lemma {:induction false} PacedUnderAnySchedule(s: Settings, steps: seq<Step>, lo: int, w: nat)
    requires s.Valid() && s.minIntervalMs >= 1 && Chronological(steps)
    ensures CountIn(GrantTimes(Resolutions(s, steps)), lo, lo + w) <= (w + s.minIntervalMs - 1) / s.minIntervalMs
  {
    DispatchesAreSpaced(s, steps);
    SpacedWindow(GrantTimes(Resolutions(s, steps)), s.minIntervalMs, lo, w);
  }

  /** In every state a run reaches, the recorded history is in order, which is what the peak report needs. */
  lemma HistoryIsSorted(s: Settings, steps: seq<Step>)
    requires s.Valid() && Chronological(steps)
    ensures NonDecreasing(Run(s, INITIAL, steps).dispatchTimes)
  {
    DispatchesAreGrants(s, steps);
    DispatchesAreSpaced(s, steps);
    SpacedIsSorted(GrantTimes(Resolutions(s, steps)), s.minIntervalMs);
  }

  // ---- Counting in sorted logs -------------------------------------------------------------------------------

  /** In a log whose entries i..j are exactly those inside the window, the count is j - i. */
  lemma {:induction false} CountInSlice(times: seq<int>, i: nat, j: nat, lo: int, hi: int)
    requires i <= j <= |times|
    requires forall k :: 0 <= k < |times| ==> (i <= k < j <==> lo <= times[k] < hi)
    ensures CountIn(times, lo, hi) == j - i
  {
    var a, b, c := times[..i], times[i..j], times[j..];
    assert times == (a + b) + c;
    CountInConcat(a + b, c, lo, hi);
    CountInConcat(a, b, lo, hi);
    CountInNone(a, lo, hi);
    CountInAll(b, lo, hi);
    CountInNone(c, lo, hi);
  }

  // ---- The class ---------------------------------------------------------------------------------------------

  /** A clock that never runs backwards. */
  class Clock {
    var time: int

    method Now() returns (now: int)
      modifies this
      ensures old(time) <= now == time
    {
      var elapsed: int := *;
      if elapsed > 0 { time := time + elapsed; }
      now := time;
    }
  }

  /** A log of loop iterations whose readings lie between two clock values. */
  ghost predicate Iterations(steps: seq<Step>, from: int, to: int) {
    && Chronological(steps)
    && forall i :: 0 <= i < |steps| ==> steps[i].Iterate? && from <= steps[i].checkedAt && steps[i].at <= to
  }

  lemma RunOne(s: Settings, p: Pacer, steps: seq<Step>, step: Step)
    ensures Run(s, p, steps + [step]) == Apply(s, Run(s, p, steps), step)
  {
    assert (steps + [step])[..|steps|] == steps;
  }

  class RateLimiter {
    const settings: Settings
    var queue: seq<nat>
    var draining: bool
    var lastDispatchAt: Option<int>
    var dispatched: nat
    var rejected: nat
    var dispatchTimes: seq<int>

    /** Between ticks a draining limiter is one whose loop is asleep. */
    ghost function Model(): Pacer
      reads this
    {
      Pacer(queue, if draining then Asleep else Idle, lastDispatchAt, dispatched, rejected, dispatchTimes)
    }

    constructor (settings: Settings)
      requires settings.Valid()
      ensures this.settings == settings && Model() == INITIAL
    {
      this.settings := settings;
      queue, draining, lastDispatchAt, dispatched, rejected, dispatchTimes := [], false, None, 0, 0, [];
    }

    /** Queues the caller and starts the drain loop if none is active; the ghost result is the loop's iterations. */
    method Acquire(id: nat, clock: Clock) returns (accepted: bool, ghost loop: seq<Step>)
      requires settings.Valid()
      modifies this, clock
      ensures accepted <==> |old(queue)| < settings.maxQueueDepth
      ensures !accepted ==> queue == old(queue) && rejected == old(rejected) + 1 && draining == old(draining)
      ensures accepted ==> rejected == old(rejected)
      ensures Iterations(loop, old(clock.time), clock.time)
      ensures Model() == Run(settings, Asked(settings, old(Model()), id), loop)
    {
      if |queue| >= settings.maxQueueDepth {
        rejected := rejected + 1;
        return false, [];
      }
      queue := queue + [id];
      accepted := true;
      loop := [];
      if !draining {
        draining := true;
        loop := Loop(clock);
      }
    }

    /** The sleep of the active drainer ends, on time or early. */
    method WakeUp(clock: Clock) returns (ghost loop: seq<Step>)
      requires settings.Valid() && draining
      modifies this, clock
      ensures Iterations(loop, old(clock.time), clock.time)
      ensures Model() == Run(settings, Apply(settings, old(Model()), Wake), loop)
    {
      loop := Loop(clock);
    }

    /** The body of the drain loop up to its next suspension or its end. */
    method Loop(clock: Clock) returns (ghost loop: seq<Step>)
      requires settings.Valid() && draining
      modifies this, clock
      ensures Iterations(loop, old(clock.time), clock.time)
      ensures Model() == Run(settings, old(Model()).(phase := Looping), loop)
      ensures rejected == old(rejected)
    {
      ghost var start := Model().(phase := Looping);
      ghost var from := clock.time;
      loop := [];
      while |queue| > 0
        invariant draining && rejected == old(rejected) && from <= clock.time
        invariant Iterations(loop, from, clock.time)
        invariant Run(settings, start, loop) == Model().(phase := Looping)
      {
        ghost var before, mid := loop, clock.time;
        var checkedAt := clock.Now();
        if lastDispatchAt.Some? && settings.minIntervalMs - (checkedAt - lastDispatchAt.value) > 0 {
          loop := Extend(settings, start, before, Iterate(checkedAt, checkedAt), from, mid, clock.time);
          return;
        }
        queue := queue[1..];
        var at := clock.Now();
        Dispatch(at);
        loop := Extend(settings, start, before, Iterate(checkedAt, at), from, mid, clock.time);
      }
      loop := Extend(settings, start, loop, Iterate(clock.time, clock.time), from, clock.time, clock.time);
      draining := false;
    }

    method Dispatch(at: int)
      modifies this
      ensures queue == old(queue) && draining == old(draining) && rejected == old(rejected)
      ensures lastDispatchAt == Some(at) && dispatched == old(dispatched) + 1
      ensures dispatchTimes == if |old(dispatchTimes)| < MAX_DISPATCH_HISTORY then old(dispatchTimes) + [at]
                               else old(dispatchTimes)
    {
      lastDispatchAt := Some(at);
      dispatched := dispatched + 1;
      if |dispatchTimes| < MAX_DISPATCH_HISTORY {
        dispatchTimes := dispatchTimes + [at];
      }
    }

    method DrainAndReject() returns (swept: seq<nat>)
      modifies this
      ensures Model() == old(Model()).(queue := []) && swept == old(queue)
    {
      swept := queue;
      queue := [];
    }

    /** The true maximum over every window of the recorded history, attained by some window. */
    method PeakInWindow(windowMs: int) returns (peak: nat)
      requires NonDecreasing(dispatchTimes)
      ensures forall start :: InWindow(dispatchTimes, start, windowMs) <= peak
      ensures peak > 0 ==> exists start :: InWindow(dispatchTimes, start, windowMs) == peak
    {
      var times := dispatchTimes;
      peak := 0;
      for i := 0 to |times|
        invariant forall k :: 0 <= k < i ==> FromEntry(times, k, windowMs) <= peak
        invariant peak > 0 ==> exists k :: 0 <= k < i && FromEntry(times, k, windowMs) == peak
      {
        var start := times[i];
        var count := 0;
        var j := i;
        while j < |times| && times[j] < start + windowMs
          invariant i <= j <= |times| && count == j - i
          invariant forall k :: i <= k < j ==> times[k] < start + windowMs
        {
          count := count + 1;
          j := j + 1;
        }
        CountFrom(times, i, j, windowMs);
        if count > peak { peak := count; }
      }
      forall start ensures InWindow(times, start, windowMs) <= peak {
        WindowStartsAtEntry(times, start, windowMs, peak);
      }
      if k :| 0 <= k < |times| && FromEntry(times, k, windowMs) == peak {
        WindowAtEntry(times, k, windowMs);
      }
    }
  }

  /** Entries from the `k`th on that lie in the window the `k`th one starts. */
  ghost function FromEntry(times: seq<int>, k: nat, w: int): nat
    requires k < |times|
  {
    InWindow(times[k..], times[k], w)
  }

  lemma CountFrom(times: seq<int>, i: nat, j: nat, w: int)
    requires NonDecreasing(times) && i < |times| && i <= j <= |times|
    requires forall k :: i <= k < j ==> times[k] < times[i] + w
    requires j < |times| ==> times[j] >= times[i] + w
    ensures FromEntry(times, i, w) == j - i
  {
    var rest := times[i..];
    forall k | 0 <= k < |rest| ensures 0 <= k < j - i <==> times[i] <= rest[k] < times[i] + w {
      if k >= j - i { assert times[j] <= times[i + k]; }
    }
    CountInSlice(rest, 0, j - i, times[i], times[i] + w);
  }

  /** Appending one iteration to a log of iterations, and what it does to the run. */
  lemma Extend(s: Settings, start: Pacer, loop: seq<Step>, step: Step, from: int, mid: int, to: int)
    returns (longer: seq<Step>)
    requires Iterations(loop, from, mid) && step.Iterate? && from <= mid <= step.checkedAt <= step.at <= to
    ensures longer == loop + [step] && Iterations(longer, from, to)
    ensures Run(s, start, longer) == Apply(s, Run(s, start, loop), step)
  {
    longer := loop + [step];
    RunOne(s, start, loop, step);
  }

  /** Sliding a window's start forward to the first entry it covers loses nothing. */
  lemma WindowStartsAtEntry(times: seq<int>, start: int, w: int, peak: nat)
    requires NonDecreasing(times)
    requires forall k :: 0 <= k < |times| ==> FromEntry(times, k, w) <= peak
    ensures InWindow(times, start, w) <= peak
  {
    if forall k :: 0 <= k < |times| ==> times[k] < start {
      CountInNone(times, start, start + w);
    } else {
      var k := FirstAtOrAfter(times, start);
      WindowFrom(times, k, start, w);
      assert FromEntry(times, k, w) <= peak;
    }
  }

  /** The window an entry starts holds at least the entries counted from it on. */
  lemma WindowAtEntry(times: seq<int>, k: nat, w: int)
    requires k < |times|
    ensures InWindow(times, times[k], w) >= FromEntry(times, k, w)
  {
    assert times == times[..k] + times[k..];
    CountInConcat(times[..k], times[k..], times[k], times[k] + w);
  }

  lemma WindowFrom(times: seq<int>, k: nat, start: int, w: int)
    requires NonDecreasing(times) && k < |times| && times[k] >= start && AtMost(times[..k], start - 1)
    ensures InWindow(times, start, w) <= InWindow(times[k..], times[k], w)
  {
    var early, rest := times[..k], times[k..];
    assert times == early + rest;
    CountInConcat(early, rest, start, start + w);
    CountInNone(early, start, start + w);
    CountInWider(rest, start, start + w, start, times[k] + w);
    SameCount(rest, start, times[k], times[k] + w);
  }

  lemma {:induction false} SameCount(s: seq<int>, lo: int, first: int, hi: int)
    requires lo <= first && forall i :: 0 <= i < |s| ==> first <= s[i]
    ensures CountIn(s, lo, hi) == CountIn(s, first, hi)
  {
    if s != [] { SameCount(s[..|s| - 1], lo, first, hi); }
  }

  lemma FirstAtOrAfter(times: seq<int>, start: int) returns (k: nat)
    requires NonDecreasing(times) && exists i :: 0 <= i < |times| && times[i] >= start
    ensures k < |times| && times[k] >= start && forall i :: 0 <= i < k ==> times[i] < start
  {
    k := 0;
    while times[k] < start
      invariant k < |times| && forall i :: 0 <= i < k ==> times[i] < start
      decreases |times| - k
    {
      k := k + 1;
    }
  }
}
