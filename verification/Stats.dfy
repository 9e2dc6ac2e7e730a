/**
 * The mock provider's egress accounting, load/mock-upstreams/lib/stats.js: per-second buckets, their sweep, and the
 * two peaks that gates read. The peaks are specified over the log of arrivals the buckets stand for.
 */
module TrafficStats {
  import opened Common

  const KEPT_SECONDS := 3600
  const MINUTE := 60

  /** Requests that arrived in the `width` whole seconds from `sec` on. */
  function Seconds(arrivals: seq<int>, sec: int, width: int): nat {
    CountIn(arrivals, 1000 * sec, 1000 * (sec + width))
  }

  /** Requests that arrived in the rolling minute that starts at millisecond `from`. */
  function RollingMinute(arrivals: seq<int>, from: int): nat {
    CountIn(arrivals, from, from + 1000 * MINUTE)
  }

  /** The largest count of any retained minute that starts on a whole second; zero if there is none. */
  ghost predicate IsMinutePeak(arrivals: seq<int>, keptFrom: int, peak: nat) {
    && (forall sec :: sec >= keptFrom ==> Seconds(arrivals, sec, MINUTE) <= peak)
    && (peak > 0 ==> exists sec :: sec >= keptFrom && Seconds(arrivals, sec, MINUTE) == peak)
  }

  /** The largest count of any retained rolling minute, which is what the peak is said to be. */
  ghost predicate IsRollingPeak(arrivals: seq<int>, keptFrom: int, peak: nat) {
    && (forall from :: from >= 1000 * keptFrom ==> RollingMinute(arrivals, from) <= peak)
    && (peak > 0 ==> exists from :: from >= 1000 * keptFrom && RollingMinute(arrivals, from) == peak)
  }

  class ProviderStats {
    var total: nat
    var perSecond: map<nat, nat>
    var firstSeenAt: Option<int>
    var lastSeenAt: Option<int>

    /** Every arrival since the last reset, and the second before which a sweep dropped the buckets. */
    ghost var arrivals: seq<int>
    ghost var keptFrom: nat

    ghost predicate Valid()
      reads this
    {
      && total == |arrivals|
      && (forall sec: nat :: sec in perSecond <==> sec >= keptFrom && Seconds(arrivals, sec, 1) > 0)
      && (forall sec :: sec in perSecond ==> perSecond[sec] == Seconds(arrivals, sec, 1))
      && firstSeenAt == (if arrivals == [] then None else Some(arrivals[0]))
      && lastSeenAt == (if arrivals == [] then None else Some(arrivals[|arrivals| - 1]))
    }

    constructor (ghost from: nat)
      ensures Valid() && arrivals == [] && keptFrom == from
    {
      total, perSecond, firstSeenAt, lastSeenAt := 0, map[], None, None;
      arrivals, keptFrom := [], from;
    }

    method RecordRequest(now: nat)
      requires Valid() && now >= 1000 * keptFrom
      modifies this
      ensures Valid() && arrivals == old(arrivals) + [now] && keptFrom == old(keptFrom)
    {
      total := total + 1;
      if firstSeenAt.None? { firstSeenAt := Some(now); }
      lastSeenAt := Some(now);
      var sec := now / 1000;
      OneMoreArrival(arrivals, now);
      perSecond := perSecond[sec := (if sec in perSecond then perSecond[sec] else 0) + 1];
      arrivals := arrivals + [now];
    }

    /** Forgets the buckets older than an hour and nothing else. */
    method Sweep(now: int)
      requires Valid()
      modifies this
      ensures Valid() && arrivals == old(arrivals) && keptFrom == Max(old(keptFrom), now / 1000 - 3600)
    {
      var cutoff := now / 1000 - KEPT_SECONDS;
      var todo := perSecond.Keys;
      ghost var before := perSecond;
      while todo != {}
        invariant todo <= perSecond.Keys <= before.Keys
        invariant forall sec :: sec in perSecond ==> perSecond[sec] == before[sec]
        invariant forall sec :: sec in before && sec !in todo ==> (sec in perSecond <==> sec >= cutoff)
        invariant arrivals == old(arrivals) && keptFrom == old(keptFrom) && total == old(total)
        invariant firstSeenAt == old(firstSeenAt) && lastSeenAt == old(lastSeenAt)
        decreases todo
      {
        var sec: nat :| sec in todo;
        todo := todo - {sec};
        if sec < cutoff { perSecond := perSecond - {sec}; }
      }
      keptFrom := Max(keptFrom, cutoff);
    }

    /** The busiest retained second. */
    method MaxRps1s() returns (max: nat)
      requires Valid()
      ensures forall sec :: sec >= keptFrom ==> Seconds(arrivals, sec, 1) <= max
      ensures max > 0 ==> exists sec :: sec >= keptFrom && Seconds(arrivals, sec, 1) == max
    {
      max := 0;
      var todo := perSecond.Keys;
      while todo != {}
        invariant todo <= perSecond.Keys
        invariant forall sec :: sec in perSecond && sec !in todo ==> perSecond[sec] <= max
        invariant max > 0 ==> exists sec :: sec in perSecond && perSecond[sec] == max
        decreases todo
      {
        var sec: nat :| sec in todo;
        todo := todo - {sec};
        if perSecond[sec] > max { max := perSecond[sec]; }
      }
    }

    /** The busiest retained minute among those that start on a whole second. */
    method MaxPerMinute() returns (max: nat)
      requires Valid()
      ensures IsMinutePeak(arrivals, keptFrom, max)
    {
      var secs: seq<nat> := Ascending(perSecond.Keys);
      assert Lists(secs, arrivals, keptFrom) by { BucketsAreListed(secs); }
      max := 0;
      for i := 0 to |secs|
        invariant forall k :: 0 <= k < i ==> Seconds(arrivals, secs[k], MINUTE) <= max
        invariant max > 0 ==> exists k :: 0 <= k < i && Seconds(arrivals, secs[k], MINUTE) == max
      {
        var sum := 0;
        var j := i;
        while j < |secs| && secs[j] < secs[i] + MINUTE
          invariant i <= j <= |secs|
          invariant j > i ==> secs[j - 1] < secs[i] + MINUTE
          invariant sum == Through(arrivals, secs, i, j)
        {
          assert secs[j] in perSecond;
          AddBucket(secs, arrivals, keptFrom, i, j);
          sum := sum + perSecond[secs[j]];
          j := j + 1;
        }
        WholeMinute(secs, arrivals, keptFrom, i, j);
        if sum > max { max := sum; }
      }
      forall sec | sec >= keptFrom
        ensures Seconds(arrivals, sec, MINUTE) <= max
      {
        StartsAtBucket(arrivals, secs, sec, max);
      }
      if max > 0 {
        ghost var k :| 0 <= k < |secs| && Seconds(arrivals, secs[k], MINUTE) == max;
        assert secs[k] in perSecond;
      }
    }

    lemma BucketsAreListed(secs: seq<int>)
      requires Valid() && forall k: nat :: k in perSecond <==> k in secs
      ensures Lists(secs, arrivals, keptFrom)
    {
      forall s: int | s >= keptFrom && Seconds(arrivals, s, 1) > 0
        ensures s in secs
      {
        assert s in perSecond;
      }
    }
  }

  /** Arrivals from the second `secs[i]` through the second `secs[j - 1]`. */
  ghost function Through(arrivals: seq<int>, secs: seq<int>, i: nat, j: nat): nat
    requires i <= j <= |secs|
  {
    if j == i then 0 else Seconds(arrivals, secs[i], secs[j - 1] + 1 - secs[i])
  }

  lemma OneMoreArrival(arrivals: seq<int>, now: nat)
    ensures forall s :: Seconds(arrivals + [now], s, 1) == Seconds(arrivals, s, 1) + if s == now / 1000 then 1 else 0
  {
    forall s ensures Seconds(arrivals + [now], s, 1) == Seconds(arrivals, s, 1) + if s == now / 1000 then 1 else 0 {
      CountInOne(arrivals, now, 1000 * s, 1000 * (s + 1));
    }
  }

  ghost predicate StrictlyAscending(s: seq<int>) {
    forall i, j :: 0 <= i < j < |s| ==> s[i] < s[j]
  }

  /** Every second from `keptFrom` on that saw arrivals is listed. */
  ghost predicate Lists(secs: seq<int>, arrivals: seq<int>, keptFrom: int) {
    forall s :: s >= keptFrom && Seconds(arrivals, s, 1) > 0 ==> s in secs
  }

  lemma NothingBetween(secs: seq<int>, arrivals: seq<int>, keptFrom: int, j: nat, until: int)
    requires StrictlyAscending(secs) && Lists(secs, arrivals, keptFrom)
    requires 0 < j <= |secs| && secs[j - 1] >= keptFrom && (j < |secs| ==> until <= secs[j])
    ensures QuietUntil(arrivals, secs[j - 1] + 1, until)
  {
  }

  lemma AddBucket(secs: seq<int>, arrivals: seq<int>, keptFrom: int, i: nat, j: nat)
    requires StrictlyAscending(secs) && Lists(secs, arrivals, keptFrom) && i <= j < |secs| && secs[i] >= keptFrom
    ensures Through(arrivals, secs, i, j + 1) == Through(arrivals, secs, i, j) + Seconds(arrivals, secs[j], 1)
  {
    if j > i {
      NothingBetween(secs, arrivals, keptFrom, j, secs[j]);
      NextBucket(arrivals, secs[i], secs[j - 1] + 1, secs[j]);
    }
  }

  lemma WholeMinute(secs: seq<int>, arrivals: seq<int>, keptFrom: int, i: nat, j: nat)
    requires StrictlyAscending(secs) && Lists(secs, arrivals, keptFrom) && i < j <= |secs| && secs[i] >= keptFrom
    requires secs[j - 1] < secs[i] + MINUTE && (j < |secs| ==> secs[j] >= secs[i] + MINUTE)
    ensures Through(arrivals, secs, i, j) == Seconds(arrivals, secs[i], MINUTE)
  {
    NothingBetween(secs, arrivals, keptFrom, j, secs[i] + MINUTE);
    Quiet(arrivals, secs[j - 1] + 1, secs[i] + MINUTE);
    CountInSplit(arrivals, 1000 * secs[i], 1000 * (secs[j - 1] + 1), 1000 * (secs[i] + MINUTE));
  }

  method Ascending(keys: set<nat>) returns (s: seq<nat>)
    ensures StrictlyAscending(s) && forall k: nat :: k in keys <==> k in s
  {
    s := [];
    var rest := keys;
    while rest != {}
      invariant StrictlyAscending(s) && rest <= keys && Splits(keys, s, rest)
      decreases rest
    {
      HasLeast(rest);
      var least :| least in rest && forall k :: k in rest ==> least <= k;
      MoveLeast(keys, s, rest, least);
      s, rest := s + [least], rest - {least};
    }
  }

  /** The keys already listed are the ones no longer in `rest`, and all smaller. */
  ghost predicate Splits(keys: set<nat>, s: seq<nat>, rest: set<nat>) {
    && (forall k: nat :: k in keys <==> k in s || k in rest)
    && (forall i, k :: 0 <= i < |s| && k in rest ==> s[i] < k)
  }

  lemma MoveLeast(keys: set<nat>, s: seq<nat>, rest: set<nat>, least: nat)
    requires StrictlyAscending(s) && Splits(keys, s, rest)
    requires least in rest && forall k :: k in rest ==> least <= k
    ensures StrictlyAscending(s + [least]) && Splits(keys, s + [least], rest - {least})
  {
  }

  lemma {:induction false} HasLeast(keys: set<nat>)
    requires keys != {}
    ensures exists least :: least in keys && forall k :: k in keys ==> least <= k
  {
    var k: nat :| k in keys;
    var rest := keys - {k};
    if rest == {} {
      assert forall x :: x in keys ==> x == k || x in rest;
    } else {
      HasLeast(rest);
      var least :| least in rest && forall x :: x in rest ==> least <= x;
      var winner := if k <= least then k else least;
      assert forall x :: x in keys ==> x == k || x in rest;
      assert winner in keys && forall x :: x in keys ==> winner <= x;
    }
  }

  /** Seconds without arrivals add nothing. */
  lemma {:induction false} Quiet(arrivals: seq<int>, lo: int, hi: int)
    requires lo <= hi && QuietUntil(arrivals, lo, hi)
    ensures Seconds(arrivals, lo, hi - lo) == 0
    decreases hi - lo
  {
    if lo == hi {
      CountInNone(arrivals, 1000 * lo, 1000 * hi);
    } else {
      Quiet(arrivals, lo + 1, hi);
      assert Seconds(arrivals, lo, 1) == 0;
      CountInSplit(arrivals, 1000 * lo, 1000 * (lo + 1), 1000 * hi);
    }
  }

  lemma NextBucket(arrivals: seq<int>, first: int, lo: int, next: int)
    requires first <= lo <= next && QuietUntil(arrivals, lo, next)
    ensures Seconds(arrivals, first, next + 1 - first) ==
            Seconds(arrivals, first, lo - first) + Seconds(arrivals, next, 1)
  {
    Quiet(arrivals, lo, next);
    CountInSplit(arrivals, 1000 * first, 1000 * lo, 1000 * (next + 1));
    CountInSplit(arrivals, 1000 * lo, 1000 * next, 1000 * (next + 1));
  }

  /** Sliding a minute forward to the first busy second it covers loses nothing. */
  lemma StartsAtBucket(arrivals: seq<int>, secs: seq<int>, sec: int, max: nat)
    requires StrictlyAscending(secs)
    requires Lists(secs, arrivals, sec)
    requires forall k :: 0 <= k < |secs| ==> Seconds(arrivals, secs[k], MINUTE) <= max
    ensures Seconds(arrivals, sec, MINUTE) <= max
  {
    if s :| sec <= s < sec + MINUTE && Seconds(arrivals, s, 1) > 0 && QuietUntil(arrivals, sec, s) {
      Quiet(arrivals, sec, s);
      CountInSplit(arrivals, 1000 * sec, 1000 * s, 1000 * (sec + MINUTE));
      CountInWider(arrivals, 1000 * s, 1000 * (sec + MINUTE), 1000 * s, 1000 * (s + MINUTE));
    } else {
      NeverBusy(arrivals, sec, sec + MINUTE);
      Quiet(arrivals, sec, sec + MINUTE);
    }
  }

  ghost predicate QuietUntil(arrivals: seq<int>, sec: int, until: int) {
    forall s :: sec <= s < until ==> Seconds(arrivals, s, 1) == 0
  }

  lemma {:induction false} NeverBusy(arrivals: seq<int>, sec: int, until: int)
    requires sec <= until
    requires !exists s :: sec <= s < until && Seconds(arrivals, s, 1) > 0 && QuietUntil(arrivals, sec, s)
    ensures QuietUntil(arrivals, sec, until)
    decreases until - sec
  {
    if sec < until { NeverBusy(arrivals, sec, until - 1); }
  }

  // ---- Rolling minutes ---------------------------------------------------------------------------------------

  /** Arrivals of the first second a rolling minute starts in, before it starts. */
  function Head(arrivals: seq<int>, from: int): nat {
    CountIn(arrivals, 1000 * (from / 1000), from)
  }

  /** Arrivals of the sixty-first second a rolling minute touches, before it ends. */
  function Tail(arrivals: seq<int>, from: int): nat {
    CountIn(arrivals, 1000 * (from / 1000 + MINUTE), from + 1000 * MINUTE)
  }

  /** A rolling minute trades the head of its whole-second minute for a tail, and beats it iff the tail is larger. */
  lemma RollingMinuteExact(arrivals: seq<int>, from: int)
    ensures RollingMinute(arrivals, from)
            == Seconds(arrivals, from / 1000, MINUTE) - Head(arrivals, from) + Tail(arrivals, from)
    ensures RollingMinute(arrivals, from) > Seconds(arrivals, from / 1000, MINUTE)
            <==> Tail(arrivals, from) > Head(arrivals, from)
  {
    var start := 1000 * (from / 1000);
    var end := start + 1000 * MINUTE;
    CountInSplit(arrivals, start, from, end);
    CountInSplit(arrivals, from, end, from + 1000 * MINUTE);
  }

  /** The tail of the rolling minute at `from` is no larger than its head and what its whole-second minute leaves. */
  predicate TailFits(arrivals: seq<int>, from: int, peak: nat) {
    Tail(arrivals, from) <= Head(arrivals, from) + (peak - Seconds(arrivals, from / 1000, MINUTE))
  }

  lemma TailFitsIff(arrivals: seq<int>, from: int, peak: nat)
    ensures TailFits(arrivals, from, peak) <==> RollingMinute(arrivals, from) <= peak
  {
    RollingMinuteExact(arrivals, from);
  }

  /** A rolling minute holds no more than the one that starts at the first arrival it covers. */
  lemma {:induction false} StartsAtArrival(arrivals: seq<int>, from: int, until: int, peak: nat)
    requires until <= from + 1000 * MINUTE
    requires forall i :: 0 <= i < |arrivals| && arrivals[i] >= from ==> RollingMinute(arrivals, arrivals[i]) <= peak
    ensures CountIn(arrivals, from, until) <= peak
    decreases until - from
  {
    if from >= until {
      CountInNone(arrivals, from, until);
    } else if from in arrivals {
      CountInWider(arrivals, from, until, from, from + 1000 * MINUTE);
    } else {
      CountInSplit(arrivals, from, from + 1, until);
      CountInNone(arrivals, from, from + 1);
      StartsAtArrival(arrivals, from + 1, until, peak);
    }
  }

  /**
   * The code calls the second peak the highest count in any rolling minute. What it reports is that iff the rolling
   * minute at every retained arrival has a tail that fits.
   */
  lemma PeakIsRollingIff(arrivals: seq<int>, keptFrom: int, peak: nat)
    requires IsMinutePeak(arrivals, keptFrom, peak)
    ensures IsRollingPeak(arrivals, keptFrom, peak)
            <==> forall i :: 0 <= i < |arrivals| && arrivals[i] >= 1000 * keptFrom ==>
                   TailFits(arrivals, arrivals[i], peak)
  {
    forall i | 0 <= i < |arrivals|
      ensures TailFits(arrivals, arrivals[i], peak) <==> RollingMinute(arrivals, arrivals[i]) <= peak
    {
      TailFitsIff(arrivals, arrivals[i], peak);
    }
    if forall i :: 0 <= i < |arrivals| && arrivals[i] >= 1000 * keptFrom ==> TailFits(arrivals, arrivals[i], peak) {
      forall from | from >= 1000 * keptFrom ensures RollingMinute(arrivals, from) <= peak {
        StartsAtArrival(arrivals, from, from + 1000 * MINUTE, peak);
      }
      if peak > 0 {
        var sec :| sec >= keptFrom && Seconds(arrivals, sec, MINUTE) == peak;
        assert RollingMinute(arrivals, 1000 * sec) == peak;
      }
    }
  }

  /** A rolling minute beats the reported peak by no more than the busiest second. */
  lemma RollingMinuteBound(arrivals: seq<int>, keptFrom: int, perMinute: nat, rps1s: nat, from: int)
    requires IsMinutePeak(arrivals, keptFrom, perMinute)
    requires forall sec :: sec >= keptFrom ==> Seconds(arrivals, sec, 1) <= rps1s
    requires from >= 1000 * keptFrom
    ensures RollingMinute(arrivals, from) <= perMinute + rps1s
    ensures from % 1000 == 0 ==> RollingMinute(arrivals, from) <= perMinute
  {
    var sec := from / 1000;
    var end := 1000 * (sec + MINUTE);
    RollingMinuteExact(arrivals, from);
    CountInWider(arrivals, end, from + 1000 * MINUTE, end, end + 1000);
    assert Seconds(arrivals, sec, MINUTE) <= perMinute;
    assert Seconds(arrivals, sec + MINUTE, 1) <= rps1s;
    if from % 1000 == 0 {
      CountInNone(arrivals, end, end);
    }
  }

  /** The gap is real: `n` requests late in one second and `n` early in the sixtieth second after it. */
  lemma RollingMinuteIsMissed(n: nat, sec: int)
    ensures var arrivals := seq(n, _ => 999) + seq(n, _ => 60_000);
            && RollingMinute(arrivals, 999) == 2 * n
            && Seconds(arrivals, sec, MINUTE) <= n && Seconds(arrivals, sec, 1) <= n
  {
    var early, late := seq(n, _ => 999), seq(n, _ => 60_000);
    CountInConcat(early, late, 999, 60_999);
    CountInAll(early, 999, 60_999);
    CountInAll(late, 999, 60_999);
    OneBurst(n, 999, sec, MINUTE);
    OneBurst(n, 60_000, sec, MINUTE);
    OneBurst(n, 999, sec, 1);
    OneBurst(n, 60_000, sec, 1);
    CountInConcat(early, late, 1000 * sec, 1000 * (sec + MINUTE));
    CountInConcat(early, late, 1000 * sec, 1000 * (sec + 1));
  }

  lemma OneBurst(n: nat, at: int, sec: int, width: int)
    ensures Seconds(seq(n, _ => at), sec, width) == if sec <= at / 1000 < sec + width then n else 0
  {
    if sec <= at / 1000 < sec + width {
      CountInAll(seq(n, _ => at), 1000 * sec, 1000 * (sec + width));
    } else {
      CountInNone(seq(n, _ => at), 1000 * sec, 1000 * (sec + width));
    }
  }
}
