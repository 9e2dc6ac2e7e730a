/**
 * The local sliding-window quota counter: a class that prunes, pushes and re-tunes in place, specified by pure
 * transitions, and theorems about the full history of spends rather than about the part the counter retains.
 */
module Quotas {
  import opened Common

  datatype Policy = Policy(limit: int, windowMs: int)
  {
    predicate Valid() {
      limit >= 1 && windowMs >= 1
    }
  }

  datatype Quota = Quota(policy: Policy, spends: seq<int>, rejected: nat)

  // ---- Transitions -------------------------------------------------------------------------------------------

  /** Drops the leading timestamps at or before the cutoff. */
  function Pruned(spends: seq<int>, cutoff: int): seq<int> {
    if spends != [] && spends[0] <= cutoff then Pruned(spends[1..], cutoff) else spends
  }

  function PrunedAt(q: Quota, now: int): Quota {
    q.(spends := Pruned(q.spends, now - q.policy.windowMs))
  }

  function Repeat(t: int, n: nat): seq<int> {
    seq(n, i => t)
  }

  predicate Fits(q: Quota, now: int, cost: nat) {
    |PrunedAt(q, now).spends| + cost <= q.policy.limit
  }

  function Consumed(q: Quota, now: int, cost: nat): Quota {
    var p := PrunedAt(q, now);
    if Fits(q, now, cost) then p.(spends := p.spends + Repeat(now, cost)) else p.(rejected := p.rejected + 1)
  }

  predicate Adopts(q: Quota, policy: Policy) {
    policy.Valid() && policy != q.policy
  }

  function Retuned(q: Quota, now: int, policy: Policy): Quota {
    if Adopts(q, policy) then PrunedAt(q.(policy := policy), now) else q
  }

  function Wait(q: Quota, now: int): int {
    var p := PrunedAt(q, now);
    if |p.spends| < p.policy.limit || p.spends == [] then 0
    else Max(0, p.spends[0] + p.policy.windowMs - now)
  }

  // ---- Runs --------------------------------------------------------------------------------------------------

  datatype Op = Consume(now: int, cost: nat) | Read(now: int) | Retune(now: int, policy: Policy)

  function Apply(q: Quota, op: Op): Quota {
    match op
    case Consume(now, cost) => Consumed(q, now, cost)
    case Read(now) => PrunedAt(q, now)
    case Retune(now, policy) => Retuned(q, now, policy)
  }

  predicate Spends(q: Quota, op: Op) {
    op.Consume? && Fits(q, op.now, op.cost)
  }

  function Run(q: Quota, ops: seq<Op>): Quota {
    if ops == [] then q else Apply(Run(q, ops[..|ops| - 1]), ops[|ops| - 1])
  }

  /** Every unit ever spent, in order, whether or not the counter still remembers it. */
  function History(q: Quota, ops: seq<Op>): seq<int> {
    if ops == [] then []
    else
      var op, before := ops[|ops| - 1], History(q, ops[..|ops| - 1]);
      if Spends(Run(q, ops[..|ops| - 1]), op) then before + Repeat(op.now, op.cost)
      else before
  }

  /** When each accepted call was accepted, one entry per call however much it cost. */
  function AcceptedAt(q: Quota, ops: seq<Op>): seq<int> {
    if ops == [] then []
    else
      var op, before := ops[|ops| - 1], AcceptedAt(q, ops[..|ops| - 1]);
      if Spends(Run(q, ops[..|ops| - 1]), op) then before + [op.now] else before
  }

  /** The cutoff an operation prunes by, if it prunes. */
  function CutoffOf(r: Quota, op: Op): Option<int> {
    match op
    case Retune(now, policy) => if Adopts(r, policy) then Some(now - policy.windowMs) else None
    case _ => Some(op.now - r.policy.windowMs)
  }

  /** The largest cutoff the run has applied, if it has applied any. */
  function Floor(q: Quota, ops: seq<Op>): Option<int> {
    if ops == [] then None
    else
      var before := Floor(q, ops[..|ops| - 1]);
      var cutoff := CutoffOf(Run(q, ops[..|ops| - 1]), ops[|ops| - 1]);
      if cutoff.None? then before else Some(Raised(before, cutoff.value))
  }

  function Raised(floor: Option<int>, cutoff: int): int {
    if floor.Some? then Max(floor.value, cutoff) else cutoff
  }

  /** The entries strictly newer than the floor, in order. */
  function Newer(h: seq<int>, floor: Option<int>): seq<int> {
    if h == [] then []
    else
      var t, before := h[|h| - 1], Newer(h[..|h| - 1], floor);
      if floor.None? || t > floor.value then before + [t] else before
  }

  ghost predicate Chronological(ops: seq<Op>) {
    forall i, j :: 0 <= i <= j < |ops| ==> ops[i].now <= ops[j].now
  }

  ghost predicate NeverRetuned(ops: seq<Op>) {
    forall i :: 0 <= i < |ops| ==> !ops[i].Retune?
  }

  /** Every accepted call spends something; the client's default cost is one unit. */
  ghost predicate Costly(ops: seq<Op>) {
    forall i :: 0 <= i < |ops| && ops[i].Consume? ==> ops[i].cost >= 1
  }

  ghost predicate Fresh(q: Quota) {
    q.policy.Valid() && q.spends == []
  }

  // ---- Helper lemmas -----------------------------------------------------------------------------------------

  lemma NewerOne(h: seq<int>, t: int, floor: Option<int>)
    ensures Newer(h + [t], floor) == if floor.None? || t > floor.value then Newer(h, floor) + [t] else Newer(h, floor)
  {
    assert (h + [t])[..|h|] == h;
  }

  lemma {:induction false} NewerKeepsAll(h: seq<int>, t: int, n: nat, floor: Option<int>)
    requires floor.None? || t > floor.value
    ensures Newer(h + Repeat(t, n), floor) == Newer(h, floor) + Repeat(t, n)
  {
    if n == 0 {
      assert h + Repeat(t, 0) == h;
    } else {
      NewerKeepsAll(h, t, n - 1, floor);
      assert Repeat(t, n) == Repeat(t, n - 1) + [t];
      assert h + Repeat(t, n) == (h + Repeat(t, n - 1)) + [t];
      NewerOne(h + Repeat(t, n - 1), t, floor);
    }
  }

  lemma {:induction false} NewerTwice(h: seq<int>, f: int, g: int)
    ensures Newer(Newer(h, Some(f)), Some(g)) == Newer(h, Some(Max(f, g)))
  {
    if h != [] {
      NewerTwice(h[..|h| - 1], f, g);
      if h[|h| - 1] > f { NewerOne(Newer(h[..|h| - 1], Some(f)), h[|h| - 1], Some(g)); }
    }
  }

  lemma {:induction false} NewerThanNothing(h: seq<int>)
    ensures Newer(h, None) == h
  {
    if h != [] { NewerThanNothing(h[..|h| - 1]); }
  }

  lemma {:induction false} NewerIsSorted(h: seq<int>, floor: Option<int>)
    requires NonDecreasing(h)
    ensures NonDecreasing(Newer(h, floor))
    ensures h != [] ==> AtMost(Newer(h, floor), h[|h| - 1])
  {
    if h != [] { NewerIsSorted(h[..|h| - 1], floor); }
  }

  lemma {:induction false} NewerCounts(h: seq<int>, floor: int, hi: int)
    requires AtMost(h, hi - 1)
    ensures |Newer(h, Some(floor))| == CountIn(h, floor + 1, hi)
  {
    if h != [] { NewerCounts(h[..|h| - 1], floor, hi); }
  }

  lemma {:induction false} PrunedAllAbove(h: seq<int>, cutoff: int)
    requires forall i :: 0 <= i < |h| ==> h[i] > cutoff
    ensures Newer(h, Some(cutoff)) == h
  {
    if h != [] { PrunedAllAbove(h[..|h| - 1], cutoff); }
  }

  lemma {:induction false} NewerWithoutFirst(h: seq<int>, cutoff: int)
    requires h != [] && h[0] <= cutoff
    ensures Newer(h, Some(cutoff)) == Newer(h[1..], Some(cutoff))
  {
    if |h| > 1 {
      NewerWithoutFirst(h[..|h| - 1], cutoff);
      assert h[1..][..|h| - 2] == h[..|h| - 1][1..];
    }
  }

  /** On a sorted list the prefix-dropping loop is the filter. */
  lemma {:induction false} PrunedIsNewer(h: seq<int>, cutoff: int)
    requires NonDecreasing(h)
    ensures Pruned(h, cutoff) == Newer(h, Some(cutoff))
  {
    if h != [] && h[0] <= cutoff {
      PrunedIsNewer(h[1..], cutoff);
      NewerWithoutFirst(h, cutoff);
    } else {
      PrunedAllAbove(h, cutoff);
    }
  }

  lemma {:induction false} RepeatCounts(t: int, n: nat, lo: int, hi: int)
    ensures CountIn(Repeat(t, n), lo, hi) == if lo <= t < hi then n else 0
  {
    if lo <= t < hi { CountInAll(Repeat(t, n), lo, hi); } else { CountInNone(Repeat(t, n), lo, hi); }
  }

  // ---- What the counter remembers ----------------------------------------------------------------------------

  /** Pruning a faithful memory raises its floor and keeps it faithful. */
  lemma PruningRaisesFloor(h: seq<int>, floor: Option<int>, cutoff: int)
    requires NonDecreasing(h)
    ensures Pruned(Newer(h, floor), cutoff) == Newer(h, Some(Raised(floor, cutoff)))
  {
    NewerIsSorted(h, floor);
    PrunedIsNewer(Newer(h, floor), cutoff);
    if floor.Some? { NewerTwice(h, floor.value, cutoff); } else { NewerThanNothing(h); }
  }

  lemma {:induction false} HistoryIsChronological(q: Quota, ops: seq<Op>)
    requires Chronological(ops)
    ensures NonDecreasing(History(q, ops))
    ensures ops != [] ==> AtMost(History(q, ops), ops[|ops| - 1].now)
  {
    if ops != [] {
      var p := ops[..|ops| - 1];
      HistoryIsChronological(q, p);
      if p != [] { assert p[|p| - 1].now <= ops[|ops| - 1].now; }
    }
  }

  lemma {:induction false} FloorIsPast(q: Quota, ops: seq<Op>)
    requires Fresh(q) && Chronological(ops)
    ensures Run(q, ops).policy.Valid()
    ensures Floor(q, ops).Some? ==> ops != [] && Floor(q, ops).value < ops[|ops| - 1].now
  {
    if ops != [] {
      var p := ops[..|ops| - 1];
      FloorIsPast(q, p);
      if p != [] { assert p[|p| - 1].now <= ops[|ops| - 1].now; }
    }
  }

  lemma RetainedStep(r: Quota, op: Op, h: seq<int>, floor: Option<int>)
    requires NonDecreasing(h) && r.spends == Newer(h, floor)
    requires r.policy.Valid() && (floor.Some? ==> floor.value < op.now)
    ensures var cutoff := CutoffOf(r, op);
            var floor' := if cutoff.None? then floor else Some(Raised(floor, cutoff.value));
            Apply(r, op).spends == Newer(if Spends(r, op) then h + Repeat(op.now, op.cost) else h, floor')
  {
    var cutoff := CutoffOf(r, op);
    if cutoff.Some? {
      var newer := Some(Raised(floor, cutoff.value));
      assert Pruned(r.spends, cutoff.value) == Newer(h, newer) by { PruningRaisesFloor(h, floor, cutoff.value); }
      if Spends(r, op) {
        assert newer.value < op.now;
        NewerKeepsAll(h, op.now, op.cost, newer);
      }
    }
  }

  /** The retained spends are exactly the part of the full history newer than every cutoff ever applied. */
  lemma {:induction false} RetainedIsHistory(q: Quota, ops: seq<Op>)
    requires Fresh(q) && Chronological(ops)
    ensures Run(q, ops).spends == Newer(History(q, ops), Floor(q, ops))
  {
    if ops != [] {
      var p, op := ops[..|ops| - 1], ops[|ops| - 1];
      RetainedIsHistory(q, p);
      HistoryIsChronological(q, p);
      FloorBeforeLast(q, ops);
      RetainedStep(Run(q, p), op, History(q, p), Floor(q, p));
    }
  }

  lemma FloorBeforeLast(q: Quota, ops: seq<Op>)
    requires Fresh(q) && Chronological(ops) && ops != []
    ensures var p := ops[..|ops| - 1];
            Run(q, p).policy.Valid() && (Floor(q, p).Some? ==> Floor(q, p).value < ops[|ops| - 1].now)
  {
    var p := ops[..|ops| - 1];
    FloorIsPast(q, p);
    if p != [] { assert p[|p| - 1].now <= ops[|ops| - 1].now; }
  }

  // ---- Sliding-window safety ---------------------------------------------------------------------------------

  lemma {:induction false} FixedPolicy(q: Quota, ops: seq<Op>)
    requires NeverRetuned(ops)
    ensures Run(q, ops).policy == q.policy
    ensures Chronological(ops) && ops != [] ==> Floor(q, ops) == Some(ops[|ops| - 1].now - q.policy.windowMs)
  {
    if ops != [] { FixedPolicy(q, ops[..|ops| - 1]); }
  }

  /** Right after an operation under a fixed policy, the window ending there holds at most the limit. */
  lemma {:induction false} WindowEndingNow(q: Quota, ops: seq<Op>)
    requires Fresh(q) && Chronological(ops) && NeverRetuned(ops) && ops != []
    ensures var now := ops[|ops| - 1].now;
            CountIn(History(q, ops), now - q.policy.windowMs + 1, now + 1) <= q.policy.limit
  {
    RetainedIsHistory(q, ops);
    HistoryIsChronological(q, ops);
    FixedPolicy(q, ops);
    NeverOverLimit(q, ops);
    var now := ops[|ops| - 1].now;
    BoundedByMemory(History(q, ops), Run(q, ops).spends, now - q.policy.windowMs, now, q.policy.limit);
  }

  lemma BoundedByMemory(h: seq<int>, spends: seq<int>, floor: int, now: int, limit: int)
    requires spends == Newer(h, Some(floor)) && AtMost(h, now) && |spends| <= limit
    ensures CountIn(h, floor + 1, now + 1) <= limit
  {
    NewerCounts(h, floor, now + 1);
  }

  /** With a fixed policy no window (T - W, T] of the full spend history holds more than the limit, for any T. */
  lemma {:induction false} SlidingWindowSafe(q: Quota, ops: seq<Op>, T: int)
    requires Fresh(q) && Chronological(ops) && NeverRetuned(ops)
    ensures CountIn(History(q, ops), T - q.policy.windowMs + 1, T + 1) <= q.policy.limit
  {
    if ops != [] {
      var p, now := ops[..|ops| - 1], ops[|ops| - 1].now;
      var lo, hi := T - q.policy.windowMs + 1, T + 1;
      if lo <= now < hi {
        WindowEndingNow(q, ops);
        HistoryIsChronological(q, ops);
        EndsBy(History(q, ops), lo, now + 1, hi);
        CountInWider(History(q, ops), lo, now + 1, now - q.policy.windowMs + 1, now + 1);
      } else {
        SlidingWindowSafe(q, p, T);
        LastStepOutside(q, ops, lo, hi);
      }
    }
  }

  lemma LastStepOutside(q: Quota, ops: seq<Op>, lo: int, hi: int)
    requires ops != [] && !(lo <= ops[|ops| - 1].now < hi)
    ensures CountIn(History(q, ops), lo, hi) == CountIn(History(q, ops[..|ops| - 1]), lo, hi)
  {
    var p, op := ops[..|ops| - 1], ops[|ops| - 1];
    if Spends(Run(q, p), op) {
      RepeatCounts(op.now, op.cost, lo, hi);
      CountInConcat(History(q, p), Repeat(op.now, op.cost), lo, hi);
    }
  }

  /** Nothing lies between the last entry and a later window end. */
  lemma EndsBy(h: seq<int>, lo: int, mid: int, hi: int)
    requires lo <= mid <= hi && AtMost(h, mid - 1)
    ensures CountIn(h, lo, hi) == CountIn(h, lo, mid)
  {
    CountInSplit(h, lo, mid, hi);
    CountInNone(h, mid, hi);
  }

  /** A call that costs at least one unit is accepted no more often than units are spent. */
  lemma {:induction false} AcceptedWithinSpent(q: Quota, ops: seq<Op>, lo: int, hi: int)
    requires Costly(ops)
    ensures CountIn(AcceptedAt(q, ops), lo, hi) <= CountIn(History(q, ops), lo, hi)
  {
    if ops != [] {
      var p, op := ops[..|ops| - 1], ops[|ops| - 1];
      AcceptedWithinSpent(q, p, lo, hi);
      if Spends(Run(q, p), op) {
        CountInOne(AcceptedAt(q, p), op.now, lo, hi);
        CountInConcat(History(q, p), Repeat(op.now, op.cost), lo, hi);
        RepeatCounts(op.now, op.cost, lo, hi);
      }
    }
  }

  function Calls(ops: seq<Op>): nat {
    if ops == [] then 0 else Calls(ops[..|ops| - 1]) + if ops[|ops| - 1].Consume? then 1 else 0
  }

  /** Every call was accepted or counted as rejected, whatever it cost and however the counter was retuned. */
  lemma {:induction false} CallsAreCounted(q: Quota, ops: seq<Op>)
    ensures |AcceptedAt(q, ops)| + Run(q, ops).rejected == q.rejected + Calls(ops)
  {
    if ops != [] { CallsAreCounted(q, ops[..|ops| - 1]); }
  }

  lemma {:induction false} AcceptedIsChronological(q: Quota, ops: seq<Op>)
    requires Chronological(ops)
    ensures NonDecreasing(AcceptedAt(q, ops))
    ensures ops != [] ==> AtMost(AcceptedAt(q, ops), ops[|ops| - 1].now)
  {
    if ops != [] {
      var p := ops[..|ops| - 1];
      AcceptedIsChronological(q, p);
      if p != [] { assert p[|p| - 1].now <= ops[|ops| - 1].now; }
    }
  }

  // ---- Retuning ----------------------------------------------------------------------------------------------

  /**
   * The method comment says retuning forgives nothing already spent. It forgives exactly the spends that fell to
   * an earlier, shorter window and lie inside the present one: the used count is the true one iff there is none.
   */
  lemma {:induction false} RetuneForgivesIff(q: Quota, ops: seq<Op>, now: int)
    requires Fresh(q) && Chronological(ops) && (ops != [] ==> ops[|ops| - 1].now <= now)
    ensures var w := Run(q, ops).policy.windowMs;
            |PrunedAt(Run(q, ops), now).spends| == CountIn(History(q, ops), now - w + 1, now + 1)
            <==> (Floor(q, ops).Some? ==> CountIn(History(q, ops), now - w + 1, Floor(q, ops).value + 1) == 0)
  {
    RetainedIsHistory(q, ops);
    HistoryIsChronological(q, ops);
    var h, f := History(q, ops), Floor(q, ops);
    var cutoff := now - Run(q, ops).policy.windowMs;
    PruningRaisesFloor(h, f, cutoff);
    NewerCounts(h, Raised(f, cutoff), now + 1);
    if f.Some? {
      FloorIsPast(q, ops);
      if f.value > cutoff {
        CountInSplit(h, cutoff + 1, f.value + 1, now + 1);
      } else {
        EmptyWindow(h, cutoff + 1, f.value + 1);
      }
    }
  }

  /**
   * A provider that opened its window at `lo` has counted every unit spent since. The counter still knows of as many
   * iff none of them fell to a cutoff; while it does, what it lets through fits the provider's window too.
   */
  lemma KnowsWindowIff(q: Quota, ops: seq<Op>, now: int, lo: int, cost: nat)
    requires Fresh(q) && Chronological(ops) && (ops != [] ==> ops[|ops| - 1].now <= now)
    ensures var r, h := Run(q, ops), History(q, ops);
            var cutoff := Raised(Floor(q, ops), now - r.policy.windowMs);
            && (|PrunedAt(r, now).spends| >= CountIn(h, lo, now + 1) <==> CountIn(h, lo, cutoff + 1) == 0)
            && (Fits(r, now, cost) && CountIn(h, lo, cutoff + 1) == 0 ==>
                  CountIn(h, lo, now + 1) + cost <= r.policy.limit)
  {
    RetainedIsHistory(q, ops);
    HistoryIsChronological(q, ops);
    FloorIsPast(q, ops);
    var h, f := History(q, ops), Floor(q, ops);
    var own := now - Run(q, ops).policy.windowMs;
    PruningRaisesFloor(h, f, own);
    NewerCounts(h, Raised(f, own), now + 1);
    if lo <= Raised(f, own) + 1 {
      CountInSplit(h, lo, Raised(f, own) + 1, now + 1);
    } else {
      EmptyWindow(h, lo, Raised(f, own) + 1);
      CountInWider(h, lo, now + 1, Raised(f, own) + 1, now + 1);
    }
  }

  /**
   * Right after a provider's window, opened at `lo` and as long as the counter's, made the counter adopt what is left
   * of it, the counter knows of every unit spent in that window iff none of them is as old as what is left.
   */
  lemma RemainderForgetsIff(q: Quota, ops: seq<Op>, now: int, policy: Policy, lo: int)
    requires Fresh(q) && Chronological(ops) && NeverRetuned(ops) && (ops != [] ==> ops[|ops| - 1].now <= now)
    requires Adopts(Run(q, ops), policy) && now < lo + q.policy.windowMs
    ensures var h := History(q, ops);
            |Run(q, ops + [Retune(now, policy)]).spends| >= CountIn(h, lo, now + 1)
            <==> CountIn(h, lo, now - policy.windowMs + 1) == 0
  {
    var h, own, f := History(q, ops), now - policy.windowMs, Floor(q, ops);
    AdoptedAfter(q, ops, now, policy);
    FixedPolicy(q, ops);
    KnowsWindowIff(q, ops + [Retune(now, policy)], now, lo, 0);
    if f.Some? && f.value > own {
      EmptyWindow(h, lo, f.value + 1);
      EmptyWindow(h, lo, own + 1);
    }
  }

  /** What adopting a policy does: nothing is spent, and the floor rises to the new cutoff. */
  lemma AdoptedAfter(q: Quota, ops: seq<Op>, now: int, policy: Policy)
    requires Chronological(ops) && (ops != [] ==> ops[|ops| - 1].now <= now) && Adopts(Run(q, ops), policy)
    ensures var after, own := ops + [Retune(now, policy)], now - policy.windowMs;
            && Chronological(after) && History(q, after) == History(q, ops) && Run(q, after).policy == policy
            && Floor(q, after) == Some(Raised(Floor(q, ops), own))
            && PrunedAt(Run(q, after), now) == Run(q, after)
  {
    OneMore(q, ops, Retune(now, policy));
    assert (ops + [Retune(now, policy)])[..|ops|] == ops;
    PrunedTwice(Run(q, ops).spends, now - policy.windowMs, now - policy.windowMs);
  }

  lemma {:induction false} EmptyWindow(h: seq<int>, lo: int, hi: int)
    requires hi <= lo
    ensures CountIn(h, lo, hi) == 0
  {
    if h != [] { EmptyWindow(h[..|h| - 1], lo, hi); }
  }

  /**
   * Shrinking the window to `s` and widening it back to `w` forgives a unit spent `e` before, whenever s <= e < w:
   * two units land in one window of length `w` whose limit was one throughout.
   */
  lemma ShrinkThenWidenOverspends(w: int, s: int, t: int, e: int)
    requires 1 <= s <= e < w
    ensures var q := Quota(Policy(1, w), [], 0);
            var ops := [Consume(t, 1), Retune(t + e, Policy(1, s)), Retune(t + e, Policy(1, w)), Consume(t + e, 1)];
            Fresh(q) && Chronological(ops) && History(q, ops) == [t, t + e] && Run(q, ops).policy == Policy(1, w)
            && t + e - w < t <= t + e
  {
    var q := Quota(Policy(1, w), [], 0);
    var a, b, c, d := Consume(t, 1), Retune(t + e, Policy(1, s)), Retune(t + e, Policy(1, w)), Consume(t + e, 1);
    assert Repeat(t, 1) == [t] && Repeat(t + e, 1) == [t + e];
    assert Apply(q, a).spends == [t];
    assert Pruned([t], t + e - s) == [];
    assert Apply(Apply(q, a), b) == Quota(Policy(1, s), [], 0);
    TwoSpends(q, a, b, c, d);
  }

  lemma TwoSpends(q: Quota, a: Op, b: Op, c: Op, d: Op)
    requires Spends(q, a) && !b.Consume? && !c.Consume? && Apply(Apply(Apply(q, a), b), c) == q && Spends(q, d)
    ensures History(q, [a, b, c, d]) == Repeat(a.now, a.cost) + Repeat(d.now, d.cost)
    ensures Run(q, [a, b, c, d]) == Apply(q, d)
  {
    OneMore(q, [], a);
    OneMore(q, [a], b);
    OneMore(q, [a, b], c);
    OneMore(q, [a, b, c], d);
    assert [] + [a] == [a] && [a] + [b] == [a, b] && [a, b] + [c] == [a, b, c] && [a, b, c] + [d] == [a, b, c, d];
    assert History(q, [a]) == Repeat(a.now, a.cost);
  }

  lemma OneMore(q: Quota, ops: seq<Op>, op: Op)
    ensures Run(q, ops + [op]) == Apply(Run(q, ops), op)
    ensures History(q, ops + [op])
            == if Spends(Run(q, ops), op) then History(q, ops) + Repeat(op.now, op.cost) else History(q, ops)
    ensures AcceptedAt(q, ops + [op])
            == if Spends(Run(q, ops), op) then AcceptedAt(q, ops) + [op.now] else AcceptedAt(q, ops)
  {
    assert (ops + [op])[..|ops|] == ops;
  }

  // ---- Waiting -----------------------------------------------------------------------------------------------

  /** The reported wait is sufficient and necessary for one unit at every later time. */
  ghost predicate WaitIsExact(q: Quota, now: int) {
    forall d: nat :: FitsAfter(q, now, d) <==> d >= Wait(q, now)
  }

  predicate FitsAfter(q: Quota, now: int, d: nat) {
    Fits(q, now + d, 1)
  }

  lemma {:induction false} PrunedLength(s: seq<int>, cutoff: int, n: nat)
    requires NonDecreasing(s) && n < |s|
    ensures |Pruned(s, cutoff)| <= |s|
    ensures |Pruned(s, cutoff)| <= |s| - 1 - n <==> s[n] <= cutoff
  {
    if s[0] <= cutoff {
      if n > 0 {
        PrunedLength(s[1..], cutoff, n - 1);
      } else if |s| > 1 {
        PrunedLength(s[1..], cutoff, 0);
      }
    }
  }

  lemma {:induction false} PrunedTwice(s: seq<int>, c: int, d: int)
    requires c <= d
    ensures Pruned(Pruned(s, c), d) == Pruned(s, d)
  {
    if s != [] && s[0] <= c { PrunedTwice(s[1..], c, d); }
  }

  lemma {:induction false} PrunedSuffix(s: seq<int>, c: int)
    ensures exists k :: 0 <= k <= |s| && Pruned(s, c) == s[k..]
    ensures Pruned(s, c) != [] ==> Pruned(s, c)[0] > c
  {
    if s != [] && s[0] <= c {
      PrunedSuffix(s[1..], c);
      var k :| 0 <= k <= |s| - 1 && Pruned(s[1..], c) == s[1..][k..];
      assert s[1..][k..] == s[k + 1..];
    } else {
      assert s[0..] == s;
    }
  }

  /**
   * The reported wait is the exact least wait iff the counter is not over its limit, or the oldest unit and the
   * unit whose ageing actually frees a slot were spent at the same instant. Only retuning to a smaller limit can
   * put the counter over, which is when the method under-reports.
   */
  lemma {:induction false} WaitIsExactIff(q: Quota, now: int)
    requires q.policy.Valid() && NonDecreasing(q.spends) && AtMost(q.spends, now)
    ensures var s := PrunedAt(q, now).spends;
            WaitIsExact(q, now)
            <==> |s| <= q.policy.limit || s[0] == s[|s| - q.policy.limit]
  {
    var s := PrunedAt(q, now).spends;
    PrunedSuffix(q.spends, now - q.policy.windowMs);
    if |s| < q.policy.limit {
      RoomNeedsNoWait(q, now);
    } else {
      forall d: nat ensures FitsAfter(q, now, d) <==> d >= s[|s| - q.policy.limit] + q.policy.windowMs - now {
        FullWaitsFor(q, now, d);
      }
      assert FitsAfter(q, now, s[|s| - q.policy.limit] + q.policy.windowMs - now);
      assert s[0] < s[|s| - q.policy.limit] ==> !FitsAfter(q, now, s[0] + q.policy.windowMs - now);
    }
  }

  /**
   * It does happen: two units spent `e` apart, then a retune that lowers the limit from two to one. The reported wait
   * is until the older unit ages out, at which time the newer one still fills the window.
   */
  lemma TighteningUnderReports(w: int, t: int, e: int)
    requires 1 <= e < w
    ensures var q, ops := Quota(Policy(2, w), [], 0), [Consume(t, 1), Consume(t + e, 1), Retune(t + e, Policy(1, w))];
            var r := Run(q, ops);
            && Fresh(q) && Chronological(ops) && History(q, ops) == [t, t + e]
            && Wait(r, t + e) == w - e && !FitsAfter(r, t + e, w - e) && FitsAfter(r, t + e, w)
            && !WaitIsExact(r, t + e)
  {
    var q := Quota(Policy(2, w), [], 0);
    var a, b, c := Consume(t, 1), Consume(t + e, 1), Retune(t + e, Policy(1, w));
    assert Repeat(t, 1) == [t] && Repeat(t + e, 1) == [t + e];
    assert Apply(q, a) == q.(spends := [t]);
    assert Apply(Apply(q, a), b) == q.(spends := [t, t + e]);
    var r := Quota(Policy(1, w), [t, t + e], 0);
    assert Apply(Apply(Apply(q, a), b), c) == r;
    TwoSpendsThenRetune(q, a, b, c);
    OverLimitWait(r, t, e);
  }

  lemma TwoSpendsThenRetune(q: Quota, a: Op, b: Op, c: Op)
    requires Spends(q, a) && Spends(Apply(q, a), b) && !c.Consume?
    ensures Run(q, [a, b, c]) == Apply(Apply(Apply(q, a), b), c)
    ensures History(q, [a, b, c]) == Repeat(a.now, a.cost) + Repeat(b.now, b.cost)
  {
    OneMore(q, [], a);
    OneMore(q, [a], b);
    OneMore(q, [a, b], c);
    assert [] + [a] == [a] && [a] + [b] == [a, b] && [a, b] + [c] == [a, b, c];
    assert History(q, [a]) == Repeat(a.now, a.cost);
  }

  lemma OverLimitWait(r: Quota, t: int, e: int)
    requires r.policy.limit == 1 && 1 <= e < r.policy.windowMs && r.spends == [t, t + e]
    ensures var w, now := r.policy.windowMs, t + e;
            Wait(r, now) == w - e && !FitsAfter(r, now, w - e) && FitsAfter(r, now, w) && !WaitIsExact(r, now)
  {
    FullWaitsFor(r, t + e, r.policy.windowMs - e);
    FullWaitsFor(r, t + e, r.policy.windowMs);
  }

  lemma RoomNeedsNoWait(q: Quota, now: int)
    requires |PrunedAt(q, now).spends| < q.policy.limit
    ensures WaitIsExact(q, now)
  {
    forall d: nat ensures FitsAfter(q, now, d) {
      PrunedTwice(q.spends, now - q.policy.windowMs, now + d - q.policy.windowMs);
      PrunedShorter(PrunedAt(q, now).spends, now + d - q.policy.windowMs);
    }
  }

  /** In a full counter one unit fits again exactly when the unit `limit` places from the end has aged out. */
  lemma FullWaitsFor(q: Quota, now: int, d: nat)
    requires q.policy.Valid() && NonDecreasing(q.spends) && |PrunedAt(q, now).spends| >= q.policy.limit
    ensures var s := PrunedAt(q, now).spends;
            FitsAfter(q, now, d) <==> d >= s[|s| - q.policy.limit] + q.policy.windowMs - now
  {
    var w, s := q.policy.windowMs, PrunedAt(q, now).spends;
    PrunedSuffix(q.spends, now - w);
    PrunedTwice(q.spends, now - w, now + d - w);
    PrunedLength(s, now + d - w, |s| - q.policy.limit);
  }

  lemma {:induction false} PrunedShorter(s: seq<int>, cutoff: int)
    ensures |Pruned(s, cutoff)| <= |s|
  {
    if s != [] && s[0] <= cutoff { PrunedShorter(s[1..], cutoff); }
  }

  /** A counter that was never retuned is never over its limit, so its reported wait is always exact. */
  lemma {:induction false} WaitIsExactWithoutRetune(q: Quota, ops: seq<Op>, now: int)
    requires Fresh(q) && Chronological(ops) && NeverRetuned(ops) && (ops != [] ==> ops[|ops| - 1].now <= now)
    ensures WaitIsExact(Run(q, ops), now)
  {
    var r := Run(q, ops);
    RetainedIsSorted(q, ops, now);
    NeverOverLimit(q, ops);
    PrunedShorter(r.spends, now - r.policy.windowMs);
    WaitIsExactIff(r, now);
  }

  lemma RetainedIsSorted(q: Quota, ops: seq<Op>, now: int)
    requires Fresh(q) && Chronological(ops) && (ops != [] ==> ops[|ops| - 1].now <= now)
    ensures NonDecreasing(Run(q, ops).spends) && AtMost(Run(q, ops).spends, now)
  {
    RetainedIsHistory(q, ops);
    HistoryIsChronological(q, ops);
    NewerIsSorted(History(q, ops), Floor(q, ops));
  }

  lemma {:induction false} NeverOverLimit(q: Quota, ops: seq<Op>)
    requires Fresh(q) && NeverRetuned(ops)
    ensures |Run(q, ops).spends| <= q.policy.limit && Run(q, ops).policy == q.policy
  {
    if ops != [] {
      NeverOverLimit(q, ops[..|ops| - 1]);
      var r := Run(q, ops[..|ops| - 1]);
      PrunedShorter(r.spends, ops[|ops| - 1].now - r.policy.windowMs);
    }
  }

  // ---- The class ---------------------------------------------------------------------------------------------

  datatype Snapshot = Snapshot(limit: int, windowMs: int, used: nat, remaining: nat, resetsAt: Option<int>,
                               rejected: nat)

  class QuotaCounter {
    var limit: int
    var windowMs: int
    var spends: seq<int>
    var rejected: nat

    ghost function Model(): Quota
      reads this
    {
      Quota(Policy(limit, windowMs), spends, rejected)
    }

    constructor (policy: Policy)
      requires policy.Valid()
      ensures Fresh(Model()) && Model() == Quota(policy, [], 0)
    {
      limit, windowMs := policy.limit, policy.windowMs;
      spends, rejected := [], 0;
    }

    method Prune(now: int)
      modifies this
      ensures Model() == PrunedAt(old(Model()), now)
    {
      var cutoff := now - windowMs;
      var drop := 0;
      assert spends[0..] == spends;
      while drop < |spends| && spends[drop] <= cutoff
        invariant 0 <= drop <= |spends|
        invariant Pruned(spends, cutoff) == Pruned(spends[drop..], cutoff)
      {
        assert spends[drop..][1..] == spends[drop + 1..];
        drop := drop + 1;
      }
      if drop > 0 {
        spends := spends[drop..];
      }
    }

    method TakeSnapshot(now: int) returns (s: Snapshot)
      modifies this
      ensures Model() == PrunedAt(old(Model()), now)
      ensures s.limit == limit && s.windowMs == windowMs && s.used == |spends| && s.rejected == rejected
      ensures s.used <= s.limit ==> s.used + s.remaining == s.limit
      ensures s.used > s.limit ==> s.remaining == 0
      ensures s.resetsAt == if spends == [] then None else Some(spends[0] + windowMs)
    {
      Prune(now);
      s := Snapshot(limit, windowMs, |spends|, Max(0, limit - |spends|),
                    if spends == [] then None else Some(spends[0] + windowMs), rejected);
    }

    method TryConsume(now: int, cost: nat) returns (ok: bool)
      modifies this
      ensures ok == Fits(old(Model()), now, cost)
      ensures Model() == Consumed(old(Model()), now, cost)
    {
      Prune(now);
      if |spends| + cost > limit {
        rejected := rejected + 1;
        return false;
      }
      ghost var kept := spends;
      for i := 0 to cost
        invariant spends == kept + Repeat(now, i)
        invariant limit == old(limit) && windowMs == old(windowMs) && rejected == old(rejected)
      {
        spends := spends + [now];
      }
      ok := true;
    }

    method Retune(now: int, policy: Policy) returns (changed: bool)
      modifies this
      ensures changed == Adopts(old(Model()), policy)
      ensures Model() == Retuned(old(Model()), now, policy)
    {
      if policy.limit < 1 || policy.windowMs < 1 { return false; }
      if policy.limit == limit && policy.windowMs == windowMs { return false; }
      limit := policy.limit;
      windowMs := policy.windowMs;
      Prune(now);
      changed := true;
    }

    method MsUntilAvailable(now: int) returns (ms: int)
      modifies this
      ensures Model() == PrunedAt(old(Model()), now) && ms == Wait(old(Model()), now)
    {
      Prune(now);
      if |spends| < limit { return 0; }
      if spends == [] { return 0; }
      ms := Max(0, spends[0] + windowMs - now);
    }
  }
}
