/**
 * The `noeviction` quota store: counters with expiry, the three scripts that run on it atomically, and the
 * fixed-window request limiter built on the last of them.
 */
module QuotaStores {
  import opened Common

  /** A counter and, once EXPIRE has been called on it, the millisecond from which it no longer exists. */
  datatype Counter = Counter(count: int, expiresAt: Option<int>)

  // ---- Commands ----------------------------------------------------------------------------------------------

  predicate Live<K>(st: map<K, Counter>, key: K, now: int) {
    key in st && (st[key].expiresAt.Some? ==> now < st[key].expiresAt.value)
  }

  function Value<K>(st: map<K, Counter>, key: K, now: int): int {
    if Live(st, key, now) then st[key].count else 0
  }

  /** INCRBY keeps a live counter's expiry and creates a missing counter without one. */
  function IncrementedBy<K>(st: map<K, Counter>, key: K, amount: int, now: int): map<K, Counter> {
    st[key := if Live(st, key, now) then st[key].(count := st[key].count + amount) else Counter(amount, None)]
  }

  function Expiring<K>(st: map<K, Counter>, key: K, seconds: int, now: int): map<K, Counter> {
    if !Live(st, key, now) then st
    else if seconds <= 0 then st - {key}
    else st[key := st[key].(expiresAt := Some(now + seconds * 1000))]
  }

  /**
   * TTL in whole seconds, at most half a second off, a half rounded up; -1 for a counter without expiry and -2 for a
   * missing one.
   */
  function Ttl<K>(st: map<K, Counter>, key: K, now: int): (seconds: int)
    ensures seconds == -2 <==> key !in st || (st[key].expiresAt.Some? && st[key].expiresAt.value <= now)
    ensures seconds == -1 <==> key in st && st[key].expiresAt.None?
    ensures seconds >= 0 ==> -500 <= st[key].expiresAt.value - now - 1000 * seconds < 500
  {
    if !Live(st, key, now) then -2
    else if st[key].expiresAt.None? then -1
    else (st[key].expiresAt.value - now + 500) / 1000
  }

  // ---- Scripts -----------------------------------------------------------------------------------------------

  predicate Grants<K>(st: map<K, Counter>, key: K, limit: int, now: int) {
    Value(st, key, now) < limit
  }

  function Reserved<K>(st: map<K, Counter>, key: K, limit: int, window: int, cost: int, now: int): map<K, Counter> {
    if !Grants(st, key, limit, now) then st
    else
      var added := IncrementedBy(st, key, cost, now);
      if added[key].count == cost then Expiring(added, key, window, now) else added
  }

  function SettledBy<K>(st: map<K, Counter>, key: K, delta: int, now: int): map<K, Counter> {
    if Ttl(st, key, now) < 0 then st
    else
      var added := IncrementedBy(st, key, delta, now);
      if added[key].count < 0 then IncrementedBy(added, key, -added[key].count, now) else added
  }

  function Counted<K>(st: map<K, Counter>, key: K, window: int, now: int): map<K, Counter> {
    var added := IncrementedBy(st, key, 1, now);
    if added[key].count == 1 then Expiring(added, key, window, now) else added
  }

  /**
   * Each script in one line: a reservation below the limit and a hit add to the live value and set the expiry only
   * where that value was zero; a settle adds to a counter that will expire, but not below zero; nothing else changes.
   */
  lemma ScriptsAreExact<K>(st: map<K, Counter>, key: K, limit: int, window: int, cost: int, delta: int, now: int)
    requires window >= 1 && cost >= 1
    ensures var used := if Live(st, key, now) then st[key].count else 0;
            var expiry := if used == 0 then Some(now + window * 1000) else st[key].expiresAt;
            && Reserved(st, key, limit, window, cost, now)
               == (if used < limit then st[key := Counter(used + cost, expiry)] else st)
            && Counted(st, key, window, now) == st[key := Counter(used + 1, expiry)]
    ensures SettledBy(st, key, delta, now)
            == if Live(st, key, now) && st[key].expiresAt.Some?
               then st[key := Counter(Max(0, st[key].count + delta), st[key].expiresAt)] else st
  {
  }

  // ---- What the scripts promise about expiry -----------------------------------------------------------------

  /** Every counter that exists will disappear. */
  ghost predicate AllExpire<K>(st: map<K, Counter>) {
    forall k :: k in st ==> st[k].expiresAt.Some? && st[k].count >= 0
  }

  datatype Script<K> = Reserve(key: K, limit: int, cost: int) | Settle(key: K, delta: int) | Incr(key: K)

  function Ran<K>(st: map<K, Counter>, script: Script<K>, window: int, now: int): map<K, Counter> {
    match script
    case Reserve(key, limit, cost) => Reserved(st, key, limit, window, cost, now)
    case Settle(key, delta) => SettledBy(st, key, delta, now)
    case Incr(key) => Counted(st, key, window, now)
  }

  /**
   * No script ever leaves an immortal or negative counter behind, a settle never creates a counter or moves an
   * expiry, and an expiry set by the same window that moves moves later.
   */
  lemma ScriptsKeepExpiry<K(!new)>(st: map<K, Counter>, script: Script<K>, window: int, now: int)
    requires AllExpire(st) && window >= 1 && (script.Reserve? ==> script.cost >= 1)
    ensures var after := Ran(st, script, window, now);
            && AllExpire(after)
            && (forall k :: k != script.key && k in after ==> k in st && after[k] == st[k])
    ensures script.Settle? && !Live(st, script.key, now) ==> Ran(st, script, window, now) == st
    ensures var after := Ran(st, script, window, now);
            Live(st, script.key, now) ==>
              && Live(after, script.key, now)
              && (script.Settle? ==> after[script.key].expiresAt == st[script.key].expiresAt)
              && (after[script.key].expiresAt == st[script.key].expiresAt
                  || after[script.key].expiresAt == Some(now + window * 1000))
              && (st[script.key].expiresAt.value <= now + window * 1000 ==>
                    after[script.key].expiresAt.value >= st[script.key].expiresAt.value)
  {
  }

  // ---- The fixed-window request limiter ----------------------------------------------------------------------

  /** Windows are whole seconds because EXPIRE is. */
  function WindowSeconds(timeWindowMs: int): (s: int)
    ensures s >= 1 && s * 1000 >= timeWindowMs
    ensures s > 1 ==> (s - 1) * 1000 < timeWindowMs
  {
    Max(1, (timeWindowMs + 999) / 1000)
  }

  function WindowIndex(now: int, windowSeconds: int): int
    requires windowSeconds >= 1
  {
    now / (1000 * windowSeconds)
  }

  lemma IndexBounds(now: int, windowSeconds: int)
    requires windowSeconds >= 1
    ensures var w := WindowIndex(now, windowSeconds);
            w * (1000 * windowSeconds) <= now < (w + 1) * (1000 * windowSeconds)
  {
  }

  /** An index is determined by the span it names. */
  lemma IndexUnique(now: int, w: int, windowSeconds: int)
    requires windowSeconds >= 1 && w * (1000 * windowSeconds) <= now < (w + 1) * (1000 * windowSeconds)
    ensures WindowIndex(now, windowSeconds) == w
  {
    var span := 1000 * windowSeconds;
    var v := WindowIndex(now, windowSeconds);
    FactorsCompare(v, w + 1, span);
    FactorsCompare(w, v + 1, span);
  }

  /** One request: its window index is computed first, its script runs on the store no earlier. */
  datatype Hit = Hit(keyedAt: int, ranAt: int)

  function KeyOf(h: Hit, window: int): int
    requires window >= 1
  {
    WindowIndex(h.keyedAt, window)
  }

  /** The counters of one subject after the given hits, in the order of their scripts. */
  function Hits(hits: seq<Hit>, window: int): map<int, Counter>
    requires window >= 1
  {
    if hits == [] then map[]
    else
      var h := hits[|hits| - 1];
      Counted(Hits(hits[..|hits| - 1], window), KeyOf(h, window), window, h.ranAt)
  }

  /** The hits that were admitted: those whose count came back no larger than the maximum. */
  function Admitted(hits: seq<Hit>, window: int, max: int): seq<Hit>
    requires window >= 1
  {
    if hits == [] then []
    else
      var h, before := hits[|hits| - 1], Admitted(hits[..|hits| - 1], window, max);
      var after := Hits(hits, window);
      if KeyOf(h, window) in after && after[KeyOf(h, window)].count <= max then before + [h] else before
  }

  function KeyedAt(hits: seq<Hit>): seq<int> {
    if hits == [] then [] else KeyedAt(hits[..|hits| - 1]) + [hits[|hits| - 1].keyedAt]
  }

  /** How many of the hits belong to the window with index `w`. */
  function InIndex(hits: seq<Hit>, window: int, w: int): nat {
    InWindow(KeyedAt(hits), w * (1000 * window), 1000 * window)
  }

  ghost predicate InOrder(hits: seq<Hit>) {
    && (forall n :: 0 <= n < |hits| ==> hits[n].keyedAt <= hits[n].ranAt)
    && (forall m, n :: 0 <= m <= n < |hits| ==> hits[m].ranAt <= hits[n].ranAt)
  }

  /** The script finds the counter of its window, or there has been none; it does not find an expired one. */
  ghost predicate Finds(before: seq<Hit>, window: int, h: Hit)
    requires window >= 1
  {
    KeyOf(h, window) in Hits(before, window) ==> Live(Hits(before, window), KeyOf(h, window), h.ranAt)
  }

  /** So does every script of window `w` in the log. */
  ghost predicate AlwaysFinds(hits: seq<Hit>, window: int, w: int)
    requires window >= 1
  {
    hits != [] ==>
      var before, h := hits[..|hits| - 1], hits[|hits| - 1];
      AlwaysFinds(before, window, w) && (KeyOf(h, window) == w ==> Finds(before, window, h))
  }

  /** Every script runs inside the window its key names. */
  ghost predicate Prompt(hits: seq<Hit>, window: int)
    requires window >= 1
  {
    forall n :: 0 <= n < |hits| ==> WindowIndex(hits[n].ranAt, window) == KeyOf(hits[n], window)
  }

  /** The counter of a window is exactly its hits so far, and it outlives the window. */
  ghost predicate Right(hits: seq<Hit>, window: int, w: int)
    requires window >= 1
  {
    var st, n := Hits(hits, window), InIndex(hits, window, w);
    if w in st then st[w].count == n >= 1 && st[w].expiresAt.Some? && st[w].expiresAt.value >= (w + 1) * (1000 * window)
    else n == 0
  }

  /** And it was right after every script before. */
  ghost predicate AlwaysRight(hits: seq<Hit>, window: int, w: int)
    requires window >= 1
  {
    Right(hits, window, w) && (hits != [] ==> AlwaysRight(hits[..|hits| - 1], window, w))
  }

  lemma HitInIndex(before: seq<Hit>, h: Hit, window: int, w: int)
    requires window >= 1
    ensures InIndex(before + [h], window, w) == InIndex(before, window, w) + if KeyOf(h, window) == w then 1 else 0
  {
    var span := 1000 * window;
    assert (before + [h])[..|before|] == before;
    CountInOne(KeyedAt(before), h.keyedAt, w * span, w * span + span);
    IndexBounds(h.keyedAt, window);
    if w * span <= h.keyedAt < w * span + span {
      assert w * span + span == (w + 1) * span;
      IndexUnique(h.keyedAt, w, window);
    }
  }

  /** A live counter grows and keeps its expiry; a missing or expired one starts over. */
  lemma CountedOnce<K>(st: map<K, Counter>, key: K, window: int, now: int)
    requires window >= 1 && (Live(st, key, now) ==> st[key].count >= 1)
    ensures Counted(st, key, window, now)
            == st[key := if Live(st, key, now) then Counter(st[key].count + 1, st[key].expiresAt)
                         else Counter(1, Some(now + window * 1000))]
  {
  }

  /** One more hit keeps the counter of its window right iff its script does not find that counter expired. */
  lemma IncrementCountsIff(before: seq<Hit>, h: Hit, window: int)
    requires window >= 1 && h.keyedAt <= h.ranAt && Right(before, window, KeyOf(h, window))
    ensures Right(before + [h], window, KeyOf(h, window)) <==> Finds(before, window, h)
  {
    var w := KeyOf(h, window);
    assert (before + [h])[..|before|] == before;
    HitInIndex(before, h, window, w);
    CountedOnce(Hits(before, window), w, window, h.ranAt);
    SpanBehind(h.keyedAt, window);
  }

  lemma SpanBehind(at: int, window: int)
    requires window >= 1
    ensures at + window * 1000 >= (WindowIndex(at, window) + 1) * (1000 * window)
  {
    IndexBounds(at, window);
  }

  lemma OtherCountersStay(before: seq<Hit>, h: Hit, window: int, w: int)
    requires window >= 1 && KeyOf(h, window) != w
    ensures Right(before + [h], window, w) <==> Right(before, window, w)
  {
    assert (before + [h])[..|before|] == before;
    HitInIndex(before, h, window, w);
  }

  /** A window's counter is its hits after every script iff no script of the window finds the counter expired. */
  lemma {:induction false} CounterIsWindowHits(hits: seq<Hit>, window: int, w: int)
    requires window >= 1 && InOrder(hits)
    ensures AlwaysFinds(hits, window, w) <==> AlwaysRight(hits, window, w)
  {
    if hits != [] {
      var before, h := hits[..|hits| - 1], hits[|hits| - 1];
      CounterIsWindowHits(before, window, w);
      assert before + [h] == hits;
      if KeyOf(h, window) != w {
        OtherCountersStay(before, h, window, w);
      } else if AlwaysRight(before, window, w) {
        IncrementCountsIff(before, h, window);
      }
    }
  }

  /** Prompt scripts always find their counter, because it outlives its window. */
  lemma {:induction false} PromptAlwaysFinds(hits: seq<Hit>, window: int, w: int)
    requires window >= 1 && InOrder(hits) && Prompt(hits, window)
    ensures AlwaysFinds(hits, window, w) && Right(hits, window, w)
  {
    if hits != [] {
      var before, h := hits[..|hits| - 1], hits[|hits| - 1];
      PromptAlwaysFinds(before, window, w);
      IndexBounds(h.ranAt, window);
      assert before + [h] == hits;
      if KeyOf(h, window) == w {
        IncrementCountsIff(before, h, window);
      } else {
        OtherCountersStay(before, h, window, w);
      }
    }
  }

  /** A hit whose window has always found its counter is admitted iff it is among the first `max` hits of its window. */
  lemma AdmittedByRank(hits: seq<Hit>, window: int, max: int)
    requires window >= 1 && InOrder(hits) && hits != []
    requires AlwaysFinds(hits, window, KeyOf(hits[|hits| - 1], window))
    ensures var before, h := hits[..|hits| - 1], hits[|hits| - 1];
            Admitted(hits, window, max)
            == if InIndex(hits, window, KeyOf(h, window)) <= max then Admitted(before, window, max) + [h]
               else Admitted(before, window, max)
  {
    CounterIsWindowHits(hits, window, KeyOf(hits[|hits| - 1], window));
  }

  /** A window that has always found its counter admits at most `max` hits. */
  lemma {:induction false} AdmittedPerWindow(hits: seq<Hit>, window: int, max: nat, w: int)
    requires window >= 1 && InOrder(hits) && AlwaysFinds(hits, window, w)
    ensures InIndex(Admitted(hits, window, max), window, w) <= Min(max, InIndex(hits, window, w))
  {
    if hits != [] {
      var before, h := hits[..|hits| - 1], hits[|hits| - 1];
      AdmittedPerWindow(before, window, max, w);
      if KeyOf(h, window) == w { AdmittedByRank(hits, window, max); }
      assert before + [h] == hits;
      HitInIndex(before, h, window, w);
      HitInIndex(Admitted(before, window, max), h, window, w);
    }
  }

  /**
   * The documented burst bound: any interval of one window's length admits at most twice the maximum, if the two
   * windows it touches have always found their counters.
   */
  lemma {:induction false} AtMostDoubleBurst(hits: seq<Hit>, window: int, max: nat, start: int)
    requires window >= 1 && InOrder(hits) && AlwaysFinds(hits, window, WindowIndex(start, window))
    requires AlwaysFinds(hits, window, WindowIndex(start, window) + 1)
    ensures InWindow(KeyedAt(Admitted(hits, window, max)), start, 1000 * window) <= 2 * max
  {
    var span := 1000 * window;
    var w := WindowIndex(start, window);
    IndexBounds(start, window);
    var admitted := KeyedAt(Admitted(hits, window, max));
    AdmittedPerWindow(hits, window, max, w);
    AdmittedPerWindow(hits, window, max, w + 1);
    assert (w + 1) * span == w * span + span;
    CountInSplit(admitted, w * span, w * span + span, w * span + span + span);
    CountInWider(admitted, start, start + span, w * span, w * span + span + span);
  }

  /** The bound is reached: one hit at each side of a boundary under a maximum of one. */
  lemma DoubleBurstHappens(window: int)
    requires window >= 1
    ensures var a, b := Hit(1000 * window - 1, 1000 * window - 1), Hit(1000 * window, 1000 * window);
            InOrder([a, b]) && Prompt([a, b], window) && Admitted([a, b], window, 1) == [a, b]
  {
    var a, b := Hit(1000 * window - 1, 1000 * window - 1), Hit(1000 * window, 1000 * window);
    IndexUnique(a.keyedAt, 0, window);
    IndexUnique(b.keyedAt, 1, window);
    TwoHits(a, b, window);
  }

  /** A late script is admitted again: it re-creates the expired counter of its window. */
  lemma LateHitIsAdmittedAgain(window: int)
    requires window >= 1
    ensures var a, b := Hit(0, 0), Hit(1000 * window - 1, 1000 * window);
            && InOrder([a, b]) && KeyOf(a, window) == KeyOf(b, window) && !Finds([a], window, b)
            && Admitted([a, b], window, 1) == [a, b]
  {
    var a, b := Hit(0, 0), Hit(1000 * window - 1, 1000 * window);
    IndexUnique(a.keyedAt, 0, window);
    IndexUnique(b.keyedAt, 0, window);
    TwoHits(a, b, window);
  }

  /** Two hits that each create a counter are both admitted under a maximum of one. */
  lemma TwoHits(a: Hit, b: Hit, window: int)
    requires window >= 1 && (KeyOf(a, window) == KeyOf(b, window) ==> b.ranAt >= a.ranAt + window * 1000)
    ensures Admitted([a, b], window, 1) == [a, b]
    ensures Hits([a], window) == map[KeyOf(a, window) := Counter(1, Some(a.ranAt + window * 1000))]
  {
    assert [a, b][..1] == [a] && [a][..0] == [];
    assert Hits([a], window) == Counted(map[], KeyOf(a, window), window, a.ranAt);
    assert Admitted([a], window, 1) == [a];
    assert Hits([a, b], window) == Counted(Hits([a], window), KeyOf(b, window), window, b.ranAt);
  }

  // ---- The store ---------------------------------------------------------------------------------------------

  class QuotaStore<K(==)> {
    var counters: map<K, Counter>

    constructor ()
      ensures counters == map[]
    {
      counters := map[];
    }

    method Get(key: K, now: int) returns (value: int)
      ensures value == Value(counters, key, now)
    {
      if Live(counters, key, now) { value := counters[key].count; } else { value := 0; }
    }

    method IncrBy(key: K, amount: int, now: int) returns (updated: int)
      modifies this
      ensures counters == IncrementedBy(old(counters), key, amount, now) && updated == counters[key].count
    {
      if Live(counters, key, now) {
        counters := counters[key := counters[key].(count := counters[key].count + amount)];
      } else {
        counters := counters[key := Counter(amount, None)];
      }
      updated := counters[key].count;
    }

    method Expire(key: K, seconds: int, now: int)
      modifies this
      ensures counters == Expiring(old(counters), key, seconds, now)
    {
      if Live(counters, key, now) {
        if seconds <= 0 {
          counters := counters - {key};
        } else {
          counters := counters[key := counters[key].(expiresAt := Some(now + seconds * 1000))];
        }
      }
    }

    method RunReserve(key: K, limit: int, window: int, cost: int, now: int)
      returns (allowed: bool, count: int, ttl: int)
      modifies this
      ensures counters == Reserved(old(counters), key, limit, window, cost, now)
      ensures var used := if Live(old(counters), key, now) then old(counters)[key].count else 0;
              && (allowed <==> used < limit) && count == used + if allowed then cost else 0
      ensures ttl == Ttl(counters, key, now)
    {
      var current := Get(key, now);
      if current >= limit {
        return false, current, Ttl(counters, key, now);
      }
      var updated := IncrBy(key, cost, now);
      if updated == cost {
        Expire(key, window, now);
      }
      return true, updated, Ttl(counters, key, now);
    }

    method RunSettle(key: K, delta: int, now: int) returns (updated: int)
      modifies this
      ensures counters == SettledBy(old(counters), key, delta, now)
      ensures if Live(old(counters), key, now) && old(counters)[key].expiresAt.Some?
              then updated == Max(0, old(counters)[key].count + delta) == counters[key].count
              else updated == -1 && counters == old(counters)
    {
      var ttl := Ttl(counters, key, now);
      if ttl < 0 { return -1; }
      updated := IncrBy(key, delta, now);
      if updated < 0 {
        var zero := IncrBy(key, -updated, now);
        updated := 0;
      }
    }

    method RunIncrement(key: K, window: int, now: int) returns (count: int, ttlSeconds: int)
      modifies this
      ensures counters == Counted(old(counters), key, window, now)
      ensures count == (if Live(old(counters), key, now) then old(counters)[key].count else 0) + 1
      ensures ttlSeconds == (var ttl := Ttl(counters, key, now); if ttl < 0 then window else ttl)
    {
      count := IncrBy(key, 1, now);
      if count == 1 {
        Expire(key, window, now);
      }
      var ttl := Ttl(counters, key, now);
      ttlSeconds := if ttl < 0 then window else ttl;
    }
  }
}
