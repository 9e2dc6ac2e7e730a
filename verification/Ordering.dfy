/** Strict orders, sorting, and the uniqueness of sorted sequences; texts compare by UTF-16 code unit. */
module Ordering {

  /** A UTF-16 code unit and a string of them, as the source language has it. */
  type Unit = u: int | 0 <= u < 0x1_0000

  type Text = seq<Unit>

  /** a < b on strings. */
  predicate Less(a: Text, b: Text) {
    b != [] && (a == [] || a[0] < b[0] || (a[0] == b[0] && Less(a[1..], b[1..])))
  }

  /** `i` is the first place where the texts differ, and there `a` has ended or has the smaller unit. */
  predicate FirstBelow(a: Text, b: Text, i: nat) {
    i <= |a| && i < |b| && a[..i] == b[..i] && (i == |a| || a[i] < b[i])
  }

  lemma FirstUnits(a: Text, b: Text, i: nat)
    requires FirstBelow(a, b, i)
    ensures i > 0 ==> a != [] && b != [] && a[0] == b[0]
  {
    if i > 0 { assert a[..i][0] == b[..i][0]; }
  }

  /** The order is the lexicographic one on code units. */
  lemma {:induction false} LessIsLexicographic(a: Text, b: Text)
    ensures Less(a, b) <==> exists i: nat :: FirstBelow(a, b, i)
  {
    if a == [] || b == [] {
      assert b != [] ==> FirstBelow(a, b, 0);
    } else if a[0] == b[0] {
      LessIsLexicographic(a[1..], b[1..]);
      if i: nat :| FirstBelow(a[1..], b[1..], i) {
        assert a[..i + 1] == [a[0]] + a[1..][..i] && b[..i + 1] == [b[0]] + b[1..][..i];
        assert FirstBelow(a, b, i + 1);
      }
      if i: nat :| FirstBelow(a, b, i) {
        assert a[1..][..i - 1] == a[..i][1..] && b[1..][..i - 1] == b[..i][1..];
        assert FirstBelow(a[1..], b[1..], i - 1);
      }
    } else {
      assert a[0] < b[0] ==> FirstBelow(a, b, 0);
      if i: nat :| FirstBelow(a, b, i) { FirstUnits(a, b, i); }
    }
  }

  lemma {:induction false} LessIrreflexive(a: Text)
    ensures !Less(a, a)
  {
    if a != [] { LessIrreflexive(a[1..]); }
  }

  lemma {:induction false} LessTransitive(a: Text, b: Text, c: Text)
    requires Less(a, b) && Less(b, c)
    ensures Less(a, c)
  {
    if a != [] && a[0] == b[0] == c[0] { LessTransitive(a[1..], b[1..], c[1..]); }
  }

  lemma {:induction false} LessTotal(a: Text, b: Text)
    requires a != b
    ensures Less(a, b) || Less(b, a)
  {
    if a != [] && b != [] && a[0] == b[0] {
      assert a == [a[0]] + a[1..] && b == [b[0]] + b[1..];
      LessTotal(a[1..], b[1..]);
    }
  }

  ghost predicate StrictOrder<T(!new)>(lt: (T, T) -> bool) {
    && (forall x :: !lt(x, x))
    && (forall x, y, z :: lt(x, y) && lt(y, z) ==> lt(x, z))
  }

  ghost predicate Sorted<T>(lt: (T, T) -> bool, s: seq<T>) {
    forall i, j :: 0 <= i < j < |s| ==> lt(s[i], s[j])
  }

  /** Any two different positions can be compared. */
  ghost predicate Comparable<T>(lt: (T, T) -> bool, s: seq<T>) {
    forall i, j :: 0 <= i < j < |s| ==> lt(s[i], s[j]) || lt(s[j], s[i])
  }

  ghost predicate SameElements<T(!new)>(s: seq<T>, t: seq<T>) {
    forall x :: x in s <==> x in t
  }

  function Insert<T>(lt: (T, T) -> bool, x: T, s: seq<T>): seq<T> {
    if s == [] || lt(x, s[0]) then [x] + s else [s[0]] + Insert(lt, x, s[1..])
  }

  function Sort<T>(lt: (T, T) -> bool, s: seq<T>): seq<T> {
    if s == [] then [] else Insert(lt, s[0], Sort(lt, s[1..]))
  }

  lemma {:induction false} InsertMultiset<T>(lt: (T, T) -> bool, x: T, s: seq<T>)
    ensures multiset(Insert(lt, x, s)) == multiset(s) + multiset{x}
  {
    if s != [] && !lt(x, s[0]) {
      InsertMultiset(lt, x, s[1..]);
      assert s == [s[0]] + s[1..];
    }
  }

  lemma {:induction false} SortMultiset<T(!new)>(lt: (T, T) -> bool, s: seq<T>)
    ensures multiset(Sort(lt, s)) == multiset(s)
    ensures |Sort(lt, s)| == |s|
    ensures SameElements(Sort(lt, s), s)
  {
    if s != [] {
      SortMultiset(lt, s[1..]);
      InsertMultiset(lt, s[0], Sort(lt, s[1..]));
      assert s == [s[0]] + s[1..];
    }
    SameMultiset(Sort(lt, s), s);
  }

  lemma SameMultiset<T(!new)>(s: seq<T>, t: seq<T>)
    requires multiset(s) == multiset(t)
    ensures |s| == |t| && SameElements(s, t)
  {
    assert |multiset(s)| == |s| && |multiset(t)| == |t|;
    forall x ensures x in s <==> x in t {
      assert x in s <==> x in multiset(s);
      assert x in t <==> x in multiset(t);
    }
  }

  lemma {:induction false} InsertSorted<T(!new)>(lt: (T, T) -> bool, x: T, s: seq<T>)
    requires StrictOrder(lt) && Sorted(lt, s) && forall y :: y in s ==> lt(x, y) || lt(y, x)
    ensures Sorted(lt, Insert(lt, x, s))
  {
    if s != [] && !lt(x, s[0]) {
      InsertSorted(lt, x, s[1..]);
      InsertMultiset(lt, x, s[1..]);
      var r := Insert(lt, x, s[1..]);
      forall i | 0 <= i < |r| ensures lt(s[0], r[i]) {
        assert r[i] in multiset(r);
        assert r[i] == x || r[i] in s[1..];
      }
    }
  }

  lemma {:induction false} SortIsSorted<T(!new)>(lt: (T, T) -> bool, s: seq<T>)
    requires StrictOrder(lt) && Comparable(lt, s)
    ensures Sorted(lt, Sort(lt, s))
  {
    if s != [] {
      SortIsSorted(lt, s[1..]);
      SortMultiset(lt, s[1..]);
      forall y | y in Sort(lt, s[1..]) ensures lt(s[0], y) || lt(y, s[0]) {
        var j :| 0 <= j < |s[1..]| && s[1..][j] == y;
        assert s[j + 1] == y;
      }
      InsertSorted(lt, s[0], Sort(lt, s[1..]));
    }
  }

  lemma FirstIsLeast<T>(lt: (T, T) -> bool, s: seq<T>)
    requires Sorted(lt, s)
    ensures s != [] ==> s[0] in s && forall x :: x in s ==> x == s[0] || lt(s[0], x)
  {
  }

  /** There is only one way to arrange given elements in strictly ascending order. */
  lemma {:induction false} SortedUnique<T(!new)>(lt: (T, T) -> bool, s: seq<T>, t: seq<T>)
    requires StrictOrder(lt) && Sorted(lt, s) && Sorted(lt, t) && SameElements(s, t)
    ensures s == t
  {
    FirstIsLeast(lt, s);
    FirstIsLeast(lt, t);
    if s != [] {
      assert s[0] in t;
      assert s[0] == t[0];
      assert s == [s[0]] + s[1..] && t == [t[0]] + t[1..];
      forall x ensures x in s[1..] <==> x in t[1..] {
        TailMembership(lt, s, x);
        TailMembership(lt, t, x);
      }
      SortedUnique(lt, s[1..], t[1..]);
    }
  }

  lemma TailMembership<T(!new)>(lt: (T, T) -> bool, s: seq<T>, x: T)
    requires StrictOrder(lt) && Sorted(lt, s) && s != []
    ensures x in s[1..] <==> x in s && x != s[0]
  {
    assert s == [s[0]] + s[1..];
  }
}
