/** Vocabulary shared by the models: optional values, error results and counting over logs of timestamps. */
module Common {

  datatype Option<+T> = None | Some(value: T)

  datatype Result<+T, +E> = Ok(value: T) | Err(error: E)

  function Max(a: int, b: int): int {
    if a >= b then a else b
  }

  function Min(a: int, b: int): int {
    if a <= b then a else b
  }

  /** Timestamps as a nondecreasing clock produces them. */
  ghost predicate NonDecreasing(s: seq<int>) {
    forall i, j :: 0 <= i <= j < |s| ==> s[i] <= s[j]
  }

  /** Every timestamp of the log is at or before `now`. */
  ghost predicate AtMost(s: seq<int>, now: int) {
    forall i :: 0 <= i < |s| ==> s[i] <= now
  }

  /** How many timestamps lie in the half-open window [lo, hi). */
  function CountIn(s: seq<int>, lo: int, hi: int): nat {
    if s == [] then 0
    else CountIn(s[..|s| - 1], lo, hi) + if lo <= s[|s| - 1] < hi then 1 else 0
  }

  /** Entries of the log inside the window of length `w` that starts at `start`. */
  function InWindow(times: seq<int>, start: int, w: int): nat {
    CountIn(times, start, start + w)
  }

  lemma CountInOne(s: seq<int>, t: int, lo: int, hi: int)
    ensures CountIn(s + [t], lo, hi) == CountIn(s, lo, hi) + if lo <= t < hi then 1 else 0
  {
    assert (s + [t])[..|s|] == s;
  }

  lemma {:induction false} CountInConcat(s: seq<int>, t: seq<int>, lo: int, hi: int)
    ensures CountIn(s + t, lo, hi) == CountIn(s, lo, hi) + CountIn(t, lo, hi)
  {
    if t == [] {
      assert s + t == s;
    } else {
      var u := t[..|t| - 1];
      CountInConcat(s, u, lo, hi);
      assert s + t == (s + u) + [t[|t| - 1]];
      CountInOne(s + u, t[|t| - 1], lo, hi);
    }
  }

  lemma {:induction false} CountInAll(s: seq<int>, lo: int, hi: int)
    requires forall i :: 0 <= i < |s| ==> lo <= s[i] < hi
    ensures CountIn(s, lo, hi) == |s|
  {
    if s != [] {
      CountInAll(s[..|s| - 1], lo, hi);
    }
  }

  lemma {:induction false} CountInNone(s: seq<int>, lo: int, hi: int)
    requires forall i :: 0 <= i < |s| ==> s[i] < lo || hi <= s[i]
    ensures CountIn(s, lo, hi) == 0
  {
    if s != [] {
      CountInNone(s[..|s| - 1], lo, hi);
    }
  }

  /** A wider window holds at least as many timestamps. */
  lemma {:induction false} CountInWider(s: seq<int>, lo: int, hi: int, lo': int, hi': int)
    requires lo' <= lo && hi <= hi'
    ensures CountIn(s, lo, hi) <= CountIn(s, lo', hi')
  {
    if s != [] {
      CountInWider(s[..|s| - 1], lo, hi, lo', hi');
    }
  }

  /** A window split at `mid` loses nothing. */
  lemma {:induction false} CountInSplit(s: seq<int>, lo: int, mid: int, hi: int)
    requires lo <= mid <= hi
    ensures CountIn(s, lo, hi) == CountIn(s, lo, mid) + CountIn(s, mid, hi)
  {
    if s != [] {
      CountInSplit(s[..|s| - 1], lo, mid, hi);
    }
  }

  lemma FactorsCompare(a: int, b: int, g: int)
    requires g >= 1 && a * g < b * g
    ensures a < b
  {
    assert (b - a) * g > 0;
  }

  /** 2 ** n on unbounded integers. */
  function Pow2(n: nat): (p: nat)
    ensures p >= 1
  {
    if n == 0 then 1 else 2 * Pow2(n - 1)
  }

  lemma {:induction false} Pow2Monotone(m: nat, n: nat)
    requires m <= n
    ensures Pow2(m) <= Pow2(n)
  {
    if m < n {
      Pow2Monotone(m, n - 1);
    }
  }
}
