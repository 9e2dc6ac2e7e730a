/**
 * Deduplication and cross-source ranking: candidates are grouped by identity in a map that is updated in place,
 * then the groups are sorted. The grouping is shared by tracks and artists; what they keep of the candidates
 * besides score and sources differs.
 */
module Merging {
  import opened Common
  import opened Ordering

  datatype Attribution = Attribution(source: Text, url: Option<Text>, text: Text)

  /** A candidate for one catalogue item; an empty identity means it could not be identified. */
  datatype Candidate<P> =
    Candidate(identity: Text, source: Text, score: real, attribution: Option<Attribution>, payload: P)

  datatype Entry<D> = Entry(detail: D, peak: real, sources: seq<Text>, attribution: seq<Attribution>)

  /** A map with the order in which its keys were first set. */
  datatype Groups<D> = Groups(order: seq<Text>, entries: map<Text, Entry<D>>)

  datatype Merged<D> =
    Merged(identity: Text, detail: D, score: real, sources: seq<Text>, attribution: seq<Attribution>)

  // ---- One candidate -----------------------------------------------------------------------------------------

  function Larger(a: real, b: real): real {
    if a >= b then a else b
  }

  function WithSource(sources: seq<Text>, s: Text): seq<Text> {
    if s in sources then sources else sources + [s]
  }

  predicate SameAttribution(a: Attribution, b: Attribution) {
    a.source == b.source && a.url == b.url
  }

  function WithAttribution(existing: seq<Attribution>, next: Option<Attribution>): seq<Attribution> {
    if next.None? || exists i :: 0 <= i < |existing| && SameAttribution(existing[i], next.value) then existing
    else existing + [next.value]
  }

  ghost predicate Consistent<D>(g: Groups<D>) {
    && (forall i :: 0 <= i < |g.order| ==> g.order[i] in g.entries && g.order[i] != [])
    && (forall k :: k in g.entries ==> k in g.order)
    && (forall i, j :: 0 <= i < j < |g.order| ==> g.order[i] != g.order[j])
  }

  function Added<P, D>(g: Groups<D>, c: Candidate<P>, first: Candidate<P> -> D, next: (D, Candidate<P>) -> D)
    : (r: Groups<D>)
    ensures Consistent(g) ==> Consistent(r)
  {
    if c.identity == [] then g
    else if c.identity !in g.entries then
      Groups(g.order + [c.identity],
             g.entries[c.identity := Entry(first(c), c.score, [c.source], WithAttribution([], c.attribution))])
    else
      var e := g.entries[c.identity];
      g.(entries := g.entries[c.identity := Entry(next(e.detail, c), Larger(e.peak, c.score),
                                                  WithSource(e.sources, c.source),
                                                  WithAttribution(e.attribution, c.attribution))])
  }

  function Grouped<P, D>(cs: seq<Candidate<P>>, first: Candidate<P> -> D, next: (D, Candidate<P>) -> D)
    : (g: Groups<D>)
    ensures Consistent(g)
  {
    if cs == [] then Groups([], map[])
    else Added(Grouped(cs[..|cs| - 1], first, next), cs[|cs| - 1], first, next)
  }

  /** 1 for one source, sublinear in more; `log2` is the source language's Math.log2. */
  function AgreementBoost(log2: nat -> real, sources: nat): real {
    if sources <= 1 then 1.0 else 1.0 + log2(sources)
  }

  function Finish<D>(identity: Text, e: Entry<D>, log2: nat -> real): Merged<D> {
    Merged(identity, e.detail, e.peak * AgreementBoost(log2, |e.sources|), Sort(Less, e.sources), e.attribution)
  }

  function Output<D>(g: Groups<D>, log2: nat -> real): (out: seq<Merged<D>>)
    requires Consistent(g)
    ensures |out| == |g.order|
  {
    seq(|g.order|, i requires 0 <= i < |g.order| && g.order[i] in g.entries =>
      Finish(g.order[i], g.entries[g.order[i]], log2))
  }

  /** Higher scores first, ties by identity. */
  predicate Ranked<D>(a: Merged<D>, b: Merged<D>) {
    a.score > b.score || (a.score == b.score && Less(a.identity, b.identity))
  }

  function Merge<P, D>(cs: seq<Candidate<P>>, first: Candidate<P> -> D, next: (D, Candidate<P>) -> D, log2: nat -> real)
    : seq<Merged<D>>
  {
    Sort(Ranked<D>, Output(Grouped(cs, first, next), log2))
  }

  // ---- What a group is, independently of the order of the candidates -----------------------------------------

  /** `p` is the highest score among the candidates of the identity. */
  ghost predicate IsPeak<P(!new)>(cs: seq<Candidate<P>>, id: Text, p: real) {
    && (exists c :: c in cs && c.identity == id && c.score == p)
    && (forall c :: c in cs && c.identity == id ==> c.score <= p)
  }

  /** `ss` lists, once each, the sources that proposed the identity. */
  ghost predicate AreSources<P(!new)>(cs: seq<Candidate<P>>, id: Text, ss: seq<Text>) {
    && (forall s :: s in ss <==> Proposed(cs, id, s))
    && (forall i, j :: 0 <= i < j < |ss| ==> ss[i] != ss[j])
  }

  ghost predicate Proposed<P(!new)>(cs: seq<Candidate<P>>, id: Text, s: Text) {
    exists c :: c in cs && c.identity == id && c.source == s
  }

  ghost predicate Mentions<P(!new)>(cs: seq<Candidate<P>>, id: Text) {
    exists c :: c in cs && c.identity == id
  }

  lemma SplitLast<T>(s: seq<T>)
    requires s != []
    ensures forall x :: x in s <==> x in s[..|s| - 1] || x == s[|s| - 1]
  {
    assert s == s[..|s| - 1] + [s[|s| - 1]];
  }

  /** Each identity has one group, holding exactly the peak and the sources of its candidates. */
  lemma {:induction false} GroupsAreExact<P(!new), D>(cs: seq<Candidate<P>>, first: Candidate<P> -> D,
                                                      next: (D, Candidate<P>) -> D, id: Text)
    requires id != []
    ensures var g := Grouped(cs, first, next);
            (id in g.entries <==> Mentions(cs, id))
            && (id in g.entries ==> IsPeak(cs, id, g.entries[id].peak) && AreSources(cs, id, g.entries[id].sources))
  {
    if cs != [] {
      var before, c := cs[..|cs| - 1], cs[|cs| - 1];
      GroupsAreExact(before, first, next, id);
      SplitLast(cs);
      var g := Grouped(before, first, next);
      if c.identity == id {
        if id in g.entries {
          PeakGrows(before, c, g.entries[id].peak);
          SourcesGrow(before, c, g.entries[id].sources);
        }
      } else {
        assert forall d :: d in cs && d.identity == id <==> d in before && d.identity == id;
        if id in g.entries {
          assert IsPeak(cs, id, g.entries[id].peak);
          assert AreSources(cs, id, g.entries[id].sources);
        }
      }
    }
  }

  lemma PeakGrows<P(!new)>(before: seq<Candidate<P>>, c: Candidate<P>, p: real)
    requires IsPeak(before, c.identity, p)
    ensures IsPeak(before + [c], c.identity, Larger(p, c.score))
  {
    var w :| w in before && w.identity == c.identity && w.score == p;
    assert w in before + [c] && c in before + [c];
  }

  lemma SourcesGrow<P(!new)>(before: seq<Candidate<P>>, c: Candidate<P>, ss: seq<Text>)
    requires AreSources(before, c.identity, ss)
    ensures AreSources(before + [c], c.identity, WithSource(ss, c.source))
  {
    var rs := WithSource(ss, c.source);
    forall s ensures s in rs <==> Proposed(before + [c], c.identity, s) {
      if s == c.source { assert c in before + [c]; }
      if s in ss {
        var d :| d in before && d.identity == c.identity && d.source == s;
        assert d in before + [c];
      }
    }
  }

  // ---- The ranking -------------------------------------------------------------------------------------------

  /** The part of a result the order of the candidates must not change. */
  datatype Key = Key(identity: Text, score: real, sources: seq<Text>)

  function KeyOf<D>(m: Merged<D>): Key {
    Key(m.identity, m.score, m.sources)
  }

  function Keys<D>(ms: seq<Merged<D>>): seq<Key> {
    seq(|ms|, i requires 0 <= i < |ms| => KeyOf(ms[i]))
  }

  predicate KeyRanked(a: Key, b: Key) {
    a.score > b.score || (a.score == b.score && Less(a.identity, b.identity))
  }

  /**
   * What a result for one identity must be: the group maximum as it is for a single source, with its log2 fold of the
   * number of sources on top for more; and the sorted sources.
   */
  ghost predicate IsKey<P(!new)>(cs: seq<Candidate<P>>, log2: nat -> real, k: Key) {
    k.identity != [] && Mentions(cs, k.identity)
    && exists p, ss :: IsKeyFrom(cs, log2, k, p, ss)
  }

  ghost predicate IsKeyFrom<P(!new)>(cs: seq<Candidate<P>>, log2: nat -> real, k: Key, p: real, ss: seq<Text>) {
    IsPeak(cs, k.identity, p) && AreSources(cs, k.identity, ss)
    && k.score == (if |ss| == 1 then p else p + p * log2(|ss|)) && k.sources == Sort(Less, ss)
  }

  lemma BoostedScore(p: real, log2: nat -> real, n: nat)
    requires n >= 1
    ensures p * AgreementBoost(log2, n) == if n == 1 then p else p + p * log2(n)
  {
  }

  lemma FinishedScore<D>(id: Text, e: Entry<D>, log2: nat -> real)
    requires |e.sources| >= 1
    ensures var k := KeyOf(Finish(id, e, log2));
            && k.identity == id && k.sources == Sort(Less, e.sources)
            && k.score == if |e.sources| == 1 then e.peak else e.peak + e.peak * log2(|e.sources|)
  {
    BoostedScore(e.peak, log2, |e.sources|);
  }

  lemma SomeSource<P(!new)>(cs: seq<Candidate<P>>, id: Text, ss: seq<Text>)
    requires Mentions(cs, id) && AreSources(cs, id, ss)
    ensures |ss| >= 1
  {
    var c :| c in cs && c.identity == id;
    assert Proposed(cs, id, c.source);
  }

  lemma LessIsStrict()
    ensures StrictOrder(Less)
  {
    forall a: Text ensures !Less(a, a) { LessIrreflexive(a); }
    forall a: Text, b: Text, c: Text | Less(a, b) && Less(b, c) ensures Less(a, c) { LessTransitive(a, b, c); }
  }

  lemma KeyRankedIsStrict()
    ensures StrictOrder(KeyRanked)
  {
    LessIsStrict();
  }

  lemma RankedIsStrict<D(!new)>()
    ensures StrictOrder(Ranked<D>)
  {
    LessIsStrict();
  }

  /** Two duplicate-free lists of the same texts have one length and one sorted form. */
  lemma SortedTextsUnique(s: seq<Text>, t: seq<Text>)
    requires SameElements(s, t)
    requires forall i, j :: 0 <= i < j < |s| ==> s[i] != s[j]
    requires forall i, j :: 0 <= i < j < |t| ==> t[i] != t[j]
    ensures Sort(Less, s) == Sort(Less, t) && |s| == |t|
  {
    LessIsStrict();
    forall a: Text, b: Text | a != b ensures Less(a, b) || Less(b, a) { LessTotal(a, b); }
    SortMultiset(Less, s);
    SortMultiset(Less, t);
    SortIsSorted(Less, s);
    SortIsSorted(Less, t);
    SortedUnique(Less, Sort(Less, s), Sort(Less, t));
  }

  lemma OutputIsComparable<D(!new)>(g: Groups<D>, log2: nat -> real)
    requires Consistent(g)
    ensures Comparable(Ranked<D>, Output(g, log2))
  {
    forall i, j | 0 <= i < j < |g.order|
      ensures Ranked(Output(g, log2)[i], Output(g, log2)[j]) || Ranked(Output(g, log2)[j], Output(g, log2)[i])
    {
      LessTotal(g.order[i], g.order[j]);
    }
  }

  lemma PeakIsUnique<P(!new)>(cs: seq<Candidate<P>>, id: Text, p: real, q: real)
    requires IsPeak(cs, id, p) && IsPeak(cs, id, q)
    ensures p == q
  {
  }

  lemma SourcesAreUnique<P(!new)>(cs: seq<Candidate<P>>, id: Text, ss: seq<Text>, rs: seq<Text>)
    requires AreSources(cs, id, ss) && AreSources(cs, id, rs)
    ensures Sort(Less, ss) == Sort(Less, rs) && |ss| == |rs|
  {
    SortedTextsUnique(ss, rs);
  }

  lemma KeyOfGroup<P(!new), D>(cs: seq<Candidate<P>>, log2: nat -> real, k: Key, p: real, ss: seq<Text>, e: Entry<D>)
    requires IsKeyFrom(cs, log2, k, p, ss) && Mentions(cs, k.identity)
    requires IsPeak(cs, k.identity, e.peak) && AreSources(cs, k.identity, e.sources)
    ensures k == KeyOf(Finish(k.identity, e, log2))
  {
    PeakIsUnique(cs, k.identity, p, e.peak);
    SourcesAreUnique(cs, k.identity, ss, e.sources);
    SomeSource(cs, k.identity, ss);
    FinishedScore(k.identity, e, log2);
  }

  lemma KeyIsGroup<P(!new), D(!new)>(cs: seq<Candidate<P>>, first: Candidate<P> -> D, next: (D, Candidate<P>) -> D,
                                     log2: nat -> real, k: Key)
    requires IsKey(cs, log2, k)
    ensures var g := Grouped(cs, first, next);
            k.identity in g.entries && k == KeyOf(Finish(k.identity, g.entries[k.identity], log2))
  {
    GroupsAreExact(cs, first, next, k.identity);
    var e := Grouped(cs, first, next).entries[k.identity];
    var p, ss :| IsKeyFrom(cs, log2, k, p, ss);
    KeyOfGroup(cs, log2, k, p, ss, e);
  }

  lemma InSort<D(!new)>(g: Groups<D>, log2: nat -> real)
    requires Consistent(g)
    ensures SameElements(Sort(Ranked<D>, Output(g, log2)), Output(g, log2))
  {
    SortMultiset(Ranked<D>, Output(g, log2));
  }

  lemma KeyFromGroup<P(!new), D(!new)>(cs: seq<Candidate<P>>, log2: nat -> real, id: Text, e: Entry<D>)
    requires id != [] && Mentions(cs, id) && IsPeak(cs, id, e.peak) && AreSources(cs, id, e.sources)
    ensures IsKey(cs, log2, KeyOf(Finish(id, e, log2)))
  {
    SomeSource(cs, id, e.sources);
    FinishedScore(id, e, log2);
    assert IsKeyFrom(cs, log2, KeyOf(Finish(id, e, log2)), e.peak, e.sources);
  }

  lemma KeyIsCalledFor<P(!new), D(!new)>(cs: seq<Candidate<P>>, first: Candidate<P> -> D, next: (D, Candidate<P>) -> D,
                                         log2: nat -> real, j: nat)
    requires j < |Grouped(cs, first, next).order|
    ensures IsKey(cs, log2, KeyOf(Output(Grouped(cs, first, next), log2)[j]))
  {
    var g := Grouped(cs, first, next);
    var id := g.order[j];
    GroupsAreExact(cs, first, next, id);
    KeyFromGroup(cs, log2, id, g.entries[id]);
  }

  /** Every result stands in the output at its identity's place, and every output is among the results. */
  lemma KeysOfSorted<D(!new)>(g: Groups<D>, log2: nat -> real, k: Key)
    requires Consistent(g)
    ensures k in Keys(Sort(Ranked<D>, Output(g, log2)))
            <==> exists j :: 0 <= j < |g.order| && k == KeyOf(Output(g, log2)[j])
  {
    var out, sorted := Output(g, log2), Sort(Ranked<D>, Output(g, log2));
    InSort(g, log2);
    if k in Keys(sorted) {
      var i :| 0 <= i < |sorted| && Keys(sorted)[i] == k;
      assert sorted[i] in out;
    }
    if j :| 0 <= j < |g.order| && k == KeyOf(out[j]) {
      assert out[j] in sorted;
      var i :| 0 <= i < |sorted| && sorted[i] == out[j];
      assert Keys(sorted)[i] == k;
    }
  }

  /** The results carry exactly the keys the candidates call for: one per identity, with its peak and sources. */
  lemma KeysAreExact<P(!new), D(!new)>(cs: seq<Candidate<P>>, first: Candidate<P> -> D, next: (D, Candidate<P>) -> D,
                                       log2: nat -> real, k: Key)
    ensures k in Keys(Merge(cs, first, next, log2)) <==> IsKey(cs, log2, k)
  {
    var g := Grouped(cs, first, next);
    KeysOfSorted(g, log2, k);
    if j :| 0 <= j < |g.order| && k == KeyOf(Output(g, log2)[j]) {
      KeyIsCalledFor(cs, first, next, log2, j);
    }
    if IsKey(cs, log2, k) {
      KeyIsGroup(cs, first, next, log2, k);
      var j :| 0 <= j < |g.order| && g.order[j] == k.identity;
      assert k == KeyOf(Output(g, log2)[j]);
    }
  }

  /** Log2 where it counts: zero at one, and larger for more. */
  ghost predicate Logarithm(log2: nat -> real) {
    log2(1) == 0.0 && forall m: nat, n: nat :: 1 <= m < n ==> log2(m) < log2(n)
  }

  function ScoreFor(peak: real, log2: nat -> real, sources: nat): real {
    if sources == 1 then peak else peak + peak * log2(sources)
  }

  lemma ScoreRises(peak: real, log2: nat -> real, n: nat, m: nat)
    requires Logarithm(log2) && peak > 0.0 && 1 <= m < n
    ensures ScoreFor(peak, log2, n) > ScoreFor(peak, log2, m) >= peak
  {
    assert log2(m) < log2(n);
    assert m > 1 ==> log2(1) < log2(m);
    assert peak * (log2(n) - log2(m)) > 0.0;
    assert m > 1 ==> peak * log2(m) > 0.0;
  }

  /** What agreement is worth: of two results with one positive peak the one with more sources ranks strictly higher. */
  lemma AgreementRanksHigher<P(!new)>(cs: seq<Candidate<P>>, log2: nat -> real, k: Key, m: Key, peak: real)
    requires Logarithm(log2) && IsKey(cs, log2, k) && IsKey(cs, log2, m)
    requires peak > 0.0 && IsPeak(cs, k.identity, peak) && IsPeak(cs, m.identity, peak)
    ensures k.score >= peak && (k.score == peak <==> |k.sources| == 1)
    ensures |k.sources| > |m.sources| ==> k.score > m.score && KeyRanked(k, m)
  {
    ScoreOf(cs, log2, k, peak);
    ScoreOf(cs, log2, m, peak);
    if |k.sources| > 1 { ScoreRises(peak, log2, |k.sources|, 1); }
    if |k.sources| > |m.sources| { ScoreRises(peak, log2, |k.sources|, |m.sources|); }
  }

  /** The score of a result, from its own sources. */
  lemma ScoreOf<P(!new)>(cs: seq<Candidate<P>>, log2: nat -> real, k: Key, peak: real)
    requires IsKey(cs, log2, k) && IsPeak(cs, k.identity, peak)
    ensures |k.sources| >= 1 && k.score == ScoreFor(peak, log2, |k.sources|)
  {
    var p, ss :| IsKeyFrom(cs, log2, k, p, ss);
    ScoreFrom(cs, log2, k, peak, p, ss);
  }

  lemma ScoreFrom<P(!new)>(cs: seq<Candidate<P>>, log2: nat -> real, k: Key, peak: real, p: real, ss: seq<Text>)
    requires IsKeyFrom(cs, log2, k, p, ss) && Mentions(cs, k.identity) && IsPeak(cs, k.identity, peak)
    ensures |k.sources| >= 1 && k.score == ScoreFor(peak, log2, |k.sources|)
  {
    PeakIsUnique(cs, k.identity, p, peak);
    SomeSource(cs, k.identity, ss);
    SortMultiset(Less, ss);
  }

  /** The results are strictly ranked by score, then identity; in particular no identity appears twice. */
  lemma ResultsAreRanked<P, D(!new)>(cs: seq<Candidate<P>>, first: Candidate<P> -> D, next: (D, Candidate<P>) -> D,
                                     log2: nat -> real)
    ensures Sorted(Ranked<D>, Merge(cs, first, next, log2))
    ensures Sorted(KeyRanked, Keys(Merge(cs, first, next, log2)))
  {
    var g := Grouped(cs, first, next);
    RankedIsStrict<D>();
    OutputIsComparable(g, log2);
    SortIsSorted(Ranked<D>, Output(g, log2));
    var sorted := Merge(cs, first, next, log2);
    forall i, j | 0 <= i < j < |sorted| ensures KeyRanked(Keys(sorted)[i], Keys(sorted)[j]) {
      assert Ranked(sorted[i], sorted[j]);
    }
  }

  /**
   * Merging is insensitive to the order of the candidates, and to repeating one: the same set of candidates gives
   * the same sequence of identities, scores and sources.
   */
  lemma MergeIgnoresOrder<P(!new), D(!new)>(cs: seq<Candidate<P>>, ds: seq<Candidate<P>>, first: Candidate<P> -> D,
                                            next: (D, Candidate<P>) -> D, log2: nat -> real)
    requires SameElements(cs, ds)
    ensures Keys(Merge(cs, first, next, log2)) == Keys(Merge(ds, first, next, log2))
  {
    var a, b := Keys(Merge(cs, first, next, log2)), Keys(Merge(ds, first, next, log2));
    KeyRankedIsStrict();
    ResultsAreRanked(cs, first, next, log2);
    ResultsAreRanked(ds, first, next, log2);
    forall k ensures k in a <==> k in b {
      KeysAreExact(cs, first, next, log2, k);
      KeysAreExact(ds, first, next, log2, k);
      SameCandidatesSameKeys(cs, ds, log2, k);
    }
    SortedUnique(KeyRanked, a, b);
  }

  lemma SameCandidatesSameKeys<P(!new)>(cs: seq<Candidate<P>>, ds: seq<Candidate<P>>, log2: nat -> real, k: Key)
    requires SameElements(cs, ds)
    ensures IsKey(cs, log2, k) <==> IsKey(ds, log2, k)
  {
    forall s ensures Proposed(cs, k.identity, s) <==> Proposed(ds, k.identity, s) {}
    forall p, ss ensures IsKeyFrom(cs, log2, k, p, ss) <==> IsKeyFrom(ds, log2, k, p, ss) {}
  }

  // ---- Attribution -------------------------------------------------------------------------------------------

  ghost predicate Listed(kept: seq<Attribution>, a: Attribution) {
    exists i :: 0 <= i < |kept| && kept[i].source == a.source && kept[i].url == a.url
  }

  ghost predicate Required<P(!new)>(cs: seq<Candidate<P>>, id: Text, a: Attribution) {
    exists c :: c in cs && c.identity == id && c.attribution == Some(a)
  }

  /** Each candidate's attribution is present, once, and nothing else is. */
  ghost predicate Attributes<P(!new)>(cs: seq<Candidate<P>>, id: Text, kept: seq<Attribution>) {
    && (forall a :: Required(cs, id, a) ==> Listed(kept, a))
    && NoneRepeated(kept)
    && (forall a :: a in kept ==> Required(cs, id, a))
  }

  ghost predicate NoneRepeated(kept: seq<Attribution>) {
    forall i, j :: 0 <= i < j < |kept| ==> kept[i].source != kept[j].source || kept[i].url != kept[j].url
  }

  /** The candidate at `n` is the first of the identity to bring an attribution of this source and url. */
  ghost predicate FirstOffer<P(!new)>(cs: seq<Candidate<P>>, id: Text, n: nat, a: Attribution) {
    && n < |cs| && cs[n].identity == id && cs[n].attribution == Some(a)
    && forall m :: 0 <= m < n && cs[m].identity == id && cs[m].attribution.Some? ==>
         cs[m].attribution.value.source != a.source || cs[m].attribution.value.url != a.url
  }

  /** The list holds first offers only, in the order in which they came. */
  ghost predicate OfferedInOrder<P(!new)>(cs: seq<Candidate<P>>, id: Text, kept: seq<Attribution>) {
    && (forall i :: 0 <= i < |kept| ==> Offered(cs, id, kept[i]))
    && forall i, j :: 0 <= i < j < |kept| ==> OfferedBefore(cs, id, kept[i], kept[j])
  }

  ghost predicate Offered<P(!new)>(cs: seq<Candidate<P>>, id: Text, a: Attribution) {
    exists n: nat :: FirstOffer(cs, id, n, a)
  }

  ghost predicate OfferedBefore<P(!new)>(cs: seq<Candidate<P>>, id: Text, a: Attribution, b: Attribution) {
    forall m: nat, n: nat :: FirstOffer(cs, id, m, a) && FirstOffer(cs, id, n, b) ==> m < n
  }

  lemma OffersOfPrefix<P(!new)>(before: seq<Candidate<P>>, c: Candidate<P>, id: Text, n: nat, a: Attribution)
    requires n < |before|
    ensures FirstOffer(before + [c], id, n, a) <==> FirstOffer(before, id, n, a)
  {
    assert forall m :: 0 <= m <= n ==> (before + [c])[m] == before[m];
  }

  /** One more candidate leaves the order alone, or offers something new and comes last. */
  lemma OffersGrow<P(!new)>(before: seq<Candidate<P>>, c: Candidate<P>, id: Text, kept: seq<Attribution>)
    requires Attributes(before, id, kept) && OfferedInOrder(before, id, kept)
    ensures OfferedInOrder(before + [c], id, if c.identity == id then WithAttribution(kept, c.attribution) else kept)
  {
    var cs, more := before + [c], if c.identity == id then WithAttribution(kept, c.attribution) else kept;
    if |more| > |kept| { NewOffer(before, c, id, kept); }
    forall i | 0 <= i < |more| ensures Offered(cs, id, more[i]) {
      if i < |kept| { var n := StillOffered(before, c, id, kept[i]); }
    }
    forall i, j | 0 <= i < j < |more| ensures OfferedBefore(cs, id, more[i], more[j]) {
      var k := StillOffered(before, c, id, kept[i]);
      if j < |kept| {
        var l := StillOffered(before, c, id, kept[j]);
        assert OfferedBefore(before, id, kept[i], kept[j]);
        FirstOfferUnique(cs, id, k, l, kept[i], kept[j]);
      } else {
        FirstOfferUnique(cs, id, k, |before|, kept[i], more[j]);
      }
    }
  }

  lemma StillOffered<P(!new)>(before: seq<Candidate<P>>, c: Candidate<P>, id: Text, a: Attribution) returns (n: nat)
    requires Offered(before, id, a)
    ensures n < |before| && FirstOffer(before, id, n, a) && FirstOffer(before + [c], id, n, a)
  {
    n :| FirstOffer(before, id, n, a);
    OffersOfPrefix(before, c, id, n, a);
  }

  lemma FirstOfferUnique<P(!new)>(cs: seq<Candidate<P>>, id: Text, k: nat, l: nat, a: Attribution, b: Attribution)
    requires FirstOffer(cs, id, k, a) && FirstOffer(cs, id, l, b) && k < l
    ensures OfferedBefore(cs, id, a, b)
  {
    forall m: nat, n: nat | FirstOffer(cs, id, m, a) && FirstOffer(cs, id, n, b) ensures m == k && n == l {
    }
  }

  lemma NewOffer<P(!new)>(before: seq<Candidate<P>>, c: Candidate<P>, id: Text, kept: seq<Attribution>)
    requires Attributes(before, id, kept) && c.identity == id && |WithAttribution(kept, c.attribution)| > |kept|
    ensures FirstOffer(before + [c], id, |before|, WithAttribution(kept, c.attribution)[|kept|])
  {
    var cs, a := before + [c], c.attribution.value;
    forall m | 0 <= m < |before| && cs[m].identity == id && cs[m].attribution.Some?
      ensures cs[m].attribution.value.source != a.source || cs[m].attribution.value.url != a.url
    {
      assert before[m] in before;
      assert Required(before, id, before[m].attribution.value);
      assert Listed(kept, before[m].attribution.value);
    }
  }

  lemma RequiredGrows<P(!new)>(before: seq<Candidate<P>>, c: Candidate<P>, id: Text, a: Attribution)
    ensures Required(before + [c], id, a) <==> Required(before, id, a) || (c.identity == id && c.attribution == Some(a))
  {
    assert c in before + [c];
    assert forall d :: d in before + [c] <==> d in before || d == c;
  }

  lemma ListedGrows(kept: seq<Attribution>, next: Option<Attribution>, a: Attribution)
    ensures Listed(kept, a) ==> Listed(WithAttribution(kept, next), a)
    ensures next == Some(a) ==> Listed(WithAttribution(kept, next), a)
  {
    var more := WithAttribution(kept, next);
    if Listed(kept, a) {
      var i :| 0 <= i < |kept| && kept[i].source == a.source && kept[i].url == a.url;
      assert more[i] == kept[i];
    } else if next == Some(a) {
      assert more[|kept|] == a;
    }
  }

  /** No provider's required attribution is lost or repeated by merging, and they stand in the order of first offers. */
  lemma {:induction false} AttributionIsKept<P(!new), D>(cs: seq<Candidate<P>>, first: Candidate<P> -> D,
                                                         next: (D, Candidate<P>) -> D, id: Text)
    requires id in Grouped(cs, first, next).entries
    ensures Attributes(cs, id, Grouped(cs, first, next).entries[id].attribution)
    ensures OfferedInOrder(cs, id, Grouped(cs, first, next).entries[id].attribution)
  {
    if cs != [] {
      var before, c := cs[..|cs| - 1], cs[|cs| - 1];
      var g := Grouped(before, first, next);
      assert cs == before + [c];
      if id in g.entries {
        AttributionIsKept(before, first, next, id);
      } else {
        NothingRequired(before, first, next, id);
      }
      AttributionGrows(before, c, id, if id in g.entries then g.entries[id].attribution else []);
      OffersGrow(before, c, id, if id in g.entries then g.entries[id].attribution else []);
      AddedAttribution(g, c, first, next, id);
      assert Grouped(cs, first, next) == Added(g, c, first, next);
    }
  }

  lemma AddedAttribution<P, D>(g: Groups<D>, c: Candidate<P>, first: Candidate<P> -> D, next: (D, Candidate<P>) -> D,
                               id: Text)
    requires id in Added(g, c, first, next).entries
    ensures var kept := if id in g.entries then g.entries[id].attribution else [];
            Added(g, c, first, next).entries[id].attribution
            == if c.identity == id && id != [] then WithAttribution(kept, c.attribution) else kept
  {
  }

  lemma NothingRequired<P(!new), D>(cs: seq<Candidate<P>>, first: Candidate<P> -> D, next: (D, Candidate<P>) -> D,
                                    id: Text)
    requires id != [] && id !in Grouped(cs, first, next).entries
    ensures Attributes(cs, id, [])
  {
    GroupsAreExact(cs, first, next, id);
    assert forall c :: c in cs ==> c.identity != id;
  }

  lemma StillNoneRepeated(kept: seq<Attribution>, next: Option<Attribution>)
    requires NoneRepeated(kept)
    ensures NoneRepeated(WithAttribution(kept, next))
    ensures forall a :: a in WithAttribution(kept, next) ==> a in kept || next == Some(a)
  {
  }

  lemma AttributionGrows<P(!new)>(before: seq<Candidate<P>>, c: Candidate<P>, id: Text, kept: seq<Attribution>)
    requires Attributes(before, id, kept)
    ensures Attributes(before + [c], id, if c.identity == id then WithAttribution(kept, c.attribution) else kept)
  {
    var more := if c.identity == id then WithAttribution(kept, c.attribution) else kept;
    StillNoneRepeated(kept, c.attribution);
    forall a | Required(before + [c], id, a) ensures Listed(more, a) {
      RequiredGrows(before, c, id, a);
      ListedGrows(kept, c.attribution, a);
    }
    forall a | a in more ensures Required(before + [c], id, a) {
      RequiredGrows(before, c, id, a);
    }
  }

  /** A result carries what its group keeps. */
  lemma ResultIsGroup<P, D(!new)>(cs: seq<Candidate<P>>, first: Candidate<P> -> D, next: (D, Candidate<P>) -> D,
                                  log2: nat -> real, m: Merged<D>)
    requires m in Merge(cs, first, next, log2)
    ensures var g := Grouped(cs, first, next).entries;
            m.identity in g && m.detail == g[m.identity].detail && m.attribution == g[m.identity].attribution
  {
    var g := Grouped(cs, first, next);
    InSort(g, log2);
    assert m in Output(g, log2);
  }

  // ---- Tracks ------------------------------------------------------------------------------------------------

  datatype TrackInfo = TrackInfo(title: Text, artistName: Text, recordingMbid: Option<Text>, artistMbid: Option<Text>)

  datatype Best = Best(info: TrackInfo, bestScore: real)

  function OrElse<T>(a: Option<T>, b: Option<T>): Option<T> {
    if a.Some? then a else b
  }

  function FirstTrack(c: Candidate<TrackInfo>): Best {
    Best(c.payload, c.score)
  }

  predicate Replaces(b: Best, c: Candidate<TrackInfo>) {
    c.score > b.bestScore || (b.info.recordingMbid.None? && c.payload.recordingMbid.Some?)
  }

  /** The richest representation wins, not merely the highest score. */
  function NextTrack(b: Best, c: Candidate<TrackInfo>): Best {
    if Replaces(b, c) then
      Best(c.payload.(recordingMbid := OrElse(c.payload.recordingMbid, b.info.recordingMbid),
                      artistMbid := OrElse(c.payload.artistMbid, b.info.artistMbid)),
           Larger(b.bestScore, c.score))
    else b
  }

  ghost predicate FromGroup(cs: seq<Candidate<TrackInfo>>, id: Text, b: Best) {
    && (b.info.recordingMbid.Some? <==> exists c :: c in cs && c.identity == id && c.payload.recordingMbid.Some?)
    && (b.info.recordingMbid.Some? ==>
          exists c :: c in cs && c.identity == id && c.payload.recordingMbid == b.info.recordingMbid)
    && (b.info.artistMbid.Some? ==>
          exists c :: c in cs && c.identity == id && c.payload.artistMbid == b.info.artistMbid)
    && (exists c :: c in cs && c.identity == id
                    && c.payload.title == b.info.title && c.payload.artistName == b.info.artistName)
  }

  /**
   * A merged track has a recording id exactly when some candidate of its identity has one, shows title and artist
   * of one and the same candidate, and its best score is its peak.
   */
  lemma {:induction false} RecordingIdSurvives(cs: seq<Candidate<TrackInfo>>, id: Text)
    requires id in Grouped(cs, FirstTrack, NextTrack).entries
    ensures var e := Grouped(cs, FirstTrack, NextTrack).entries[id];
            FromGroup(cs, id, e.detail) && e.detail.bestScore == e.peak
  {
    var before, c := cs[..|cs| - 1], cs[|cs| - 1];
    var g := Grouped(before, FirstTrack, NextTrack);
    EntryAfterLast(cs, FirstTrack, NextTrack, id);
    assert before + [c] == cs;
    if id in g.entries { RecordingIdSurvives(before, id); }
    if c.identity != id {
      TrackOfOthers(before, c, id, g.entries[id].detail);
    } else if id in g.entries {
      TrackGrows(before, c, g.entries[id].detail);
    } else {
      GroupsAreExact(before, FirstTrack, NextTrack, id);
      TrackStarts(before, c);
    }
  }

  /** What the last candidate does to the entry of one identity. */
  lemma EntryAfterLast<P, D>(cs: seq<Candidate<P>>, first: Candidate<P> -> D, next: (D, Candidate<P>) -> D, id: Text)
    requires cs != [] && id in Grouped(cs, first, next).entries
    ensures var c, g := cs[|cs| - 1], Grouped(cs[..|cs| - 1], first, next).entries;
            var e := Grouped(cs, first, next).entries[id];
            && id != []
            && (c.identity != id ==> id in g && e == g[id])
            && (c.identity == id && id in g ==>
                  e.detail == next(g[id].detail, c) && e.peak == Larger(g[id].peak, c.score))
            && (c.identity == id && id !in g ==> e.detail == first(c) && e.peak == c.score)
  {
    EntryAdded(Grouped(cs[..|cs| - 1], first, next), cs[|cs| - 1], first, next, id);
  }

  lemma EntryAdded<P, D>(g: Groups<D>, c: Candidate<P>, first: Candidate<P> -> D, next: (D, Candidate<P>) -> D,
                         id: Text)
    requires Consistent(g) && id in Added(g, c, first, next).entries
    ensures var e := Added(g, c, first, next).entries[id];
            && id != []
            && (c.identity != id ==> id in g.entries && e == g.entries[id])
            && (c.identity == id && id in g.entries ==>
                  e.detail == next(g.entries[id].detail, c) && e.peak == Larger(g.entries[id].peak, c.score))
            && (c.identity == id && id !in g.entries ==> e.detail == first(c) && e.peak == c.score)
  {
  }

  lemma TrackStarts(before: seq<Candidate<TrackInfo>>, c: Candidate<TrackInfo>)
    requires !Mentions(before, c.identity)
    ensures FromGroup(before + [c], c.identity, FirstTrack(c))
  {
    assert c in before + [c];
    forall d | d in before + [c] && d.identity == c.identity
      ensures d == c
    {
      assert d in before ==> Mentions(before, c.identity);
    }
  }

  lemma TrackGrows(before: seq<Candidate<TrackInfo>>, c: Candidate<TrackInfo>, b: Best)
    requires FromGroup(before, c.identity, b)
    ensures FromGroup(before + [c], c.identity, NextTrack(b, c))
  {
    assert c in before + [c];
    assert forall d :: d in before ==> d in before + [c];
  }

  lemma TrackOfOthers(before: seq<Candidate<TrackInfo>>, c: Candidate<TrackInfo>, id: Text, b: Best)
    requires FromGroup(before, id, b) && c.identity != id
    ensures FromGroup(before + [c], id, b)
  {
    assert forall d :: d in before ==> d in before + [c];
  }

  /**
   * The candidate at `n` scores higher than every earlier one of its identity, or is the first of them with a recording
   * id.
   */
  ghost predicate Leads(cs: seq<Candidate<TrackInfo>>, n: nat) {
    && n < |cs|
    && ((forall m :: 0 <= m < n && cs[m].identity == cs[n].identity ==> cs[m].score < cs[n].score)
        || (cs[n].payload.recordingMbid.Some?
            && forall m :: 0 <= m < n && cs[m].identity == cs[n].identity ==> cs[m].payload.recordingMbid.None?))
  }

  /** The candidate at `n` is its identity's first, or replaces the best one kept so far. */
  predicate TakesOver(cs: seq<Candidate<TrackInfo>>, n: nat)
    requires n < |cs|
  {
    var g := Grouped(cs[..n], FirstTrack, NextTrack).entries;
    cs[n].identity !in g || Replaces(g[cs[n].identity].detail, cs[n])
  }

  /** Which candidates the code lets take over, without the state it keeps. */
  lemma TakesOverIff(cs: seq<Candidate<TrackInfo>>, n: nat)
    requires n < |cs| && cs[n].identity != []
    ensures TakesOver(cs, n) <==> Leads(cs, n)
  {
    var before, id := cs[..n], cs[n].identity;
    GroupsAreExact(before, FirstTrack, NextTrack, id);
    assert forall m :: 0 <= m < n ==> before[m] == cs[m] && cs[m] in before;
    if id in Grouped(before, FirstTrack, NextTrack).entries {
      RecordingIdSurvives(before, id);
    } else {
      assert forall m :: 0 <= m < n && cs[m].identity == id ==> Mentions(before, id);
    }
  }

  datatype Part = Names | RecordingId | ArtistId

  predicate Has(t: TrackInfo, part: Part) {
    match part
    case Names => true
    case RecordingId => t.recordingMbid.Some?
    case ArtistId => t.artistMbid.Some?
  }

  predicate SamePart(t: TrackInfo, u: TrackInfo, part: Part) {
    match part
    case Names => t.title == u.title && t.artistName == u.artistName
    case RecordingId => t.recordingMbid == u.recordingMbid
    case ArtistId => t.artistMbid == u.artistMbid
  }

  /** A leading candidate of the identity that has the part. */
  ghost predicate Offers(cs: seq<Candidate<TrackInfo>>, id: Text, part: Part, n: nat) {
    Leads(cs, n) && cs[n].identity == id && Has(cs[n].payload, part)
  }

  ghost predicate LastOffer(cs: seq<Candidate<TrackInfo>>, id: Text, part: Part, n: nat) {
    Offers(cs, id, part, n) && forall m: nat :: n < m < |cs| ==> !Offers(cs, id, part, m)
  }

  lemma OffersInPrefix(cs: seq<Candidate<TrackInfo>>, id: Text, part: Part, n: nat)
    requires n < |cs| - 1
    ensures Offers(cs[..|cs| - 1], id, part, n) <==> Offers(cs, id, part, n)
  {
    assert forall m :: 0 <= m <= n ==> cs[..|cs| - 1][m] == cs[m];
  }

  /** The part of `info` is that of the last offer, and missing iff there is none. */
  ghost predicate ShowsPart(cs: seq<Candidate<TrackInfo>>, id: Text, part: Part, info: TrackInfo) {
    if exists n: nat :: Offers(cs, id, part, n)
    then exists n: nat :: LastOffer(cs, id, part, n) && SamePart(info, cs[n].payload, part) && Has(info, part)
    else !Has(info, part)
  }

  lemma NewPart(cs: seq<Candidate<TrackInfo>>, id: Text, part: Part, info: TrackInfo)
    requires cs != [] && Offers(cs, id, part, |cs| - 1) && SamePart(info, cs[|cs| - 1].payload, part)
    ensures ShowsPart(cs, id, part, info)
  {
    assert LastOffer(cs, id, part, |cs| - 1);
  }

  lemma SameOffers(cs: seq<Candidate<TrackInfo>>, id: Text, part: Part)
    requires cs != [] && !Offers(cs, id, part, |cs| - 1)
    ensures forall n: nat :: Offers(cs[..|cs| - 1], id, part, n) <==> Offers(cs, id, part, n)
  {
    forall n: nat ensures Offers(cs[..|cs| - 1], id, part, n) <==> Offers(cs, id, part, n) {
      if n < |cs| - 1 { OffersInPrefix(cs, id, part, n); }
    }
  }

  lemma OldPart(cs: seq<Candidate<TrackInfo>>, id: Text, part: Part, info: TrackInfo, earlier: TrackInfo)
    requires cs != [] && ShowsPart(cs[..|cs| - 1], id, part, earlier) && SamePart(info, earlier, part)
    requires !Offers(cs, id, part, |cs| - 1)
    ensures ShowsPart(cs, id, part, info)
  {
    var before := cs[..|cs| - 1];
    SameOffers(cs, id, part);
    if n: nat :| Offers(before, id, part, n) {
      var m: nat :| LastOffer(before, id, part, m) && SamePart(earlier, before[m].payload, part);
      assert LastOffer(cs, id, part, m);
    }
  }

  /** What taking over, or not, does to each part. */
  lemma PartAfter(b: Best, c: Candidate<TrackInfo>, part: Part)
    ensures var info := NextTrack(b, c).info;
            SamePart(info, if Replaces(b, c) && Has(c.payload, part) then c.payload else b.info, part)
  {
  }

  /**
   * What a merged track shows: names, recording id and artist id each come from the last leading candidate of its
   * identity that has one, and an id is missing iff no leading candidate had one.
   */
  lemma {:induction false} TrackShows(cs: seq<Candidate<TrackInfo>>, id: Text, part: Part)
    requires id in Grouped(cs, FirstTrack, NextTrack).entries
    ensures ShowsPart(cs, id, part, Grouped(cs, FirstTrack, NextTrack).entries[id].detail.info)
  {
    var last := |cs| - 1;
    var g, info := Grouped(cs[..last], FirstTrack, NextTrack).entries,
                   Grouped(cs, FirstTrack, NextTrack).entries[id].detail.info;
    EntryAfterLast(cs, FirstTrack, NextTrack, id);
    if cs[last].identity == id { TakesOverIff(cs, last); }
    if id in g {
      PartAfter(g[id].detail, cs[last], part);
      if Offers(cs, id, part, last) {
        NewPart(cs, id, part, info);
      } else {
        TrackShows(cs[..last], id, part);
        OldPart(cs, id, part, info, g[id].detail.info);
      }
    } else {
      FirstOfItsIdentity(cs, id);
      if Has(cs[last].payload, part) { NewPart(cs, id, part, info); }
    }
  }

  /** A merged track has an artist id iff some candidate with one led when it came. */
  lemma ArtistIdSurvivesIff(cs: seq<Candidate<TrackInfo>>, id: Text)
    requires id in Grouped(cs, FirstTrack, NextTrack).entries
    ensures Grouped(cs, FirstTrack, NextTrack).entries[id].detail.info.artistMbid.Some?
            <==> exists n: nat :: Leads(cs, n) && cs[n].identity == id && cs[n].payload.artistMbid.Some?
  {
    TrackShows(cs, id, ArtistId);
    if n: nat :| Leads(cs, n) && cs[n].identity == id && cs[n].payload.artistMbid.Some? {
      assert Offers(cs, id, ArtistId, n);
    }
  }

  /** The first candidate of an identity leads. */
  lemma FirstOfItsIdentity(cs: seq<Candidate<TrackInfo>>, id: Text)
    requires cs != [] && id !in Grouped(cs[..|cs| - 1], FirstTrack, NextTrack).entries && id != []
    ensures forall n: nat :: n < |cs| - 1 ==> cs[n].identity != id
    ensures cs[|cs| - 1].identity == id ==> Leads(cs, |cs| - 1)
  {
    var before := cs[..|cs| - 1];
    GroupsAreExact(before, FirstTrack, NextTrack, id);
    forall n: nat | n < |before| ensures cs[n].identity != id {
      assert before[n] in before;
      assert before[n].identity == id ==> Mentions(before, id);
    }
  }

  /** An artist id of a candidate that does not replace the best one is dropped, so the details do depend on order. */
  lemma ArtistIdDependsOnOrder(id: Text, s: Text, mbid: Text)
    requires id != []
    ensures var a := Candidate(id, s, 2.0, None, TrackInfo([1], [1], Some(mbid), None));
            var b := Candidate(id, s, 1.0, None, TrackInfo([2], [2], None, Some(mbid)));
            && Grouped([a, b], FirstTrack, NextTrack).entries[id].detail.info.artistMbid == None
            && Grouped([b, a], FirstTrack, NextTrack).entries[id].detail.info.artistMbid == Some(mbid)
  {
    var a := Candidate(id, s, 2.0, None, TrackInfo([1], [1], Some(mbid), None));
    var b := Candidate(id, s, 1.0, None, TrackInfo([2], [2], None, Some(mbid)));
    assert [a, b][..1] == [a] && [b, a][..1] == [b] && [a][..0] == [] && [b][..0] == [];
    assert Grouped([a], FirstTrack, NextTrack).entries[id].detail == FirstTrack(a);
    assert Grouped([b], FirstTrack, NextTrack).entries[id].detail == FirstTrack(b);
  }

  // ---- Artists -----------------------------------------------------------------------------------------------

  datatype ArtistInfo = ArtistInfo(name: Text, artistMbid: Option<Text>)

  function FirstArtist(c: Candidate<ArtistInfo>): ArtistInfo {
    c.payload
  }

  function NextArtist(d: ArtistInfo, c: Candidate<ArtistInfo>): ArtistInfo {
    d.(artistMbid := OrElse(d.artistMbid, c.payload.artistMbid))
  }

  /** A merged artist has an artist id exactly when some candidate of its identity has one. */
  lemma {:induction false} ArtistIdSurvives(cs: seq<Candidate<ArtistInfo>>, id: Text)
    requires id in Grouped(cs, FirstArtist, NextArtist).entries
    ensures var d := Grouped(cs, FirstArtist, NextArtist).entries[id].detail;
            && (d.artistMbid.Some? <==> exists c :: c in cs && c.identity == id && c.payload.artistMbid.Some?)
            && (d.artistMbid.Some? ==> exists c :: c in cs && c.identity == id && c.payload.artistMbid == d.artistMbid)
  {
    var before, c := cs[..|cs| - 1], cs[|cs| - 1];
    var g := Grouped(before, FirstArtist, NextArtist);
    EntryAfterLast(cs, FirstArtist, NextArtist, id);
    SplitLast(cs);
    if id in g.entries {
      ArtistIdSurvives(before, id);
    } else {
      GroupsAreExact(before, FirstArtist, NextArtist, id);
    }
    assert c in cs;
  }

  /** The candidate at `n` is the first of the identity, or the first of it with an artist id. */
  ghost predicate FirstOf(cs: seq<Candidate<ArtistInfo>>, id: Text, n: nat, identified: bool) {
    && n < |cs| && cs[n].identity == id && (identified ==> cs[n].payload.artistMbid.Some?)
    && forall m :: 0 <= m < n && cs[m].identity == id ==> identified && cs[m].payload.artistMbid.None?
  }

  predicate FromArtist(d: ArtistInfo, c: Candidate<ArtistInfo>, identified: bool) {
    if identified then d.artistMbid == c.payload.artistMbid else d.name == c.payload.name
  }

  /** The merged artist shows what this candidate brings. */
  ghost predicate ShownFrom(cs: seq<Candidate<ArtistInfo>>, id: Text, c: Candidate<ArtistInfo>, identified: bool) {
    var g := Grouped(cs, FirstArtist, NextArtist).entries;
    id in g && FromArtist(g[id].detail, c, identified)
  }

  /** A merged artist shows the name of the first candidate and the first artist id any candidate brings. */
  lemma {:induction false} ArtistShows(cs: seq<Candidate<ArtistInfo>>, id: Text, n: nat, identified: bool)
    requires id in Grouped(cs, FirstArtist, NextArtist).entries && FirstOf(cs, id, n, identified)
    ensures ShownFrom(cs, id, cs[n], identified)
  {
    if n < |cs| - 1 {
      EarlierArtist(cs, id, n, identified);
      ArtistShows(cs[..|cs| - 1], id, n, identified);
      ArtistStays(cs, id, cs[n], identified);
    } else {
      ArtistFromLast(cs, id, identified);
    }
  }

  lemma EarlierArtist(cs: seq<Candidate<ArtistInfo>>, id: Text, n: nat, identified: bool)
    requires FirstOf(cs, id, n, identified) && n < |cs| - 1
    requires id in Grouped(cs, FirstArtist, NextArtist).entries
    ensures FirstOf(cs[..|cs| - 1], id, n, identified)
    ensures id in Grouped(cs[..|cs| - 1], FirstArtist, NextArtist).entries
  {
    var before := cs[..|cs| - 1];
    assert forall m :: 0 <= m <= n ==> before[m] == cs[m];
    EntryAfterLast(cs, FirstArtist, NextArtist, id);
    GroupsAreExact(before, FirstArtist, NextArtist, id);
    assert before[n] in before && Mentions(before, id);
  }

  lemma ArtistStays(cs: seq<Candidate<ArtistInfo>>, id: Text, c: Candidate<ArtistInfo>, identified: bool)
    requires cs != [] && id in Grouped(cs, FirstArtist, NextArtist).entries
    requires ShownFrom(cs[..|cs| - 1], id, c, identified) && (identified ==> c.payload.artistMbid.Some?)
    ensures ShownFrom(cs, id, c, identified)
  {
    EntryAfterLast(cs, FirstArtist, NextArtist, id);
  }

  lemma ArtistFromLast(cs: seq<Candidate<ArtistInfo>>, id: Text, identified: bool)
    requires id in Grouped(cs, FirstArtist, NextArtist).entries && cs != [] && FirstOf(cs, id, |cs| - 1, identified)
    ensures ShownFrom(cs, id, cs[|cs| - 1], identified)
  {
    var before := cs[..|cs| - 1];
    EntryAfterLast(cs, FirstArtist, NextArtist, id);
    if id in Grouped(before, FirstArtist, NextArtist).entries {
      ArtistIdSurvives(before, id);
      GroupsAreExact(before, FirstArtist, NextArtist, id);
      forall c | c in before && c.identity == id ensures identified && c.payload.artistMbid.None? {
        NoneIdentified(cs, id, identified, c);
      }
      assert Mentions(before, id);
    }
  }

  lemma NoneIdentified(cs: seq<Candidate<ArtistInfo>>, id: Text, identified: bool, c: Candidate<ArtistInfo>)
    requires cs != [] && FirstOf(cs, id, |cs| - 1, identified) && c in cs[..|cs| - 1] && c.identity == id
    ensures identified && c.payload.artistMbid.None?
  {
    var k :| 0 <= k < |cs| - 1 && cs[k] == c;
  }

  // ---- The procedures ----------------------------------------------------------------------------------------

  /** Groups the candidates in a map updated in place, then lists and sorts the groups. */
  method MergeCandidates<P, D>(cs: seq<Candidate<P>>, first: Candidate<P> -> D, next: (D, Candidate<P>) -> D,
                               log2: nat -> real)
    returns (out: seq<Merged<D>>)
    ensures out == Merge(cs, first, next, log2)
  {
    var order: seq<Text> := [];
    var entries: map<Text, Entry<D>> := map[];
    for n := 0 to |cs|
      invariant Groups(order, entries) == Grouped(cs[..n], first, next)
    {
      assert cs[..n + 1][..n] == cs[..n];
      order, entries := AddCandidate(order, entries, cs[n], first, next);
    }
    assert cs[..|cs|] == cs;
    var listed := ListGroups(Groups(order, entries), log2);
    out := Sort(Ranked<D>, listed);
  }

  method ListGroups<D>(g: Groups<D>, log2: nat -> real) returns (listed: seq<Merged<D>>)
    requires Consistent(g)
    ensures listed == Output(g, log2)
  {
    listed := [];
    for i := 0 to |g.order|
      invariant listed == Output(g, log2)[..i]
    {
      var e := g.entries[g.order[i]];
      ghost var out := Output(g, log2);
      assert out[..i + 1] == out[..i] + [out[i]] && out[i] == Finish(g.order[i], e, log2);
      listed := listed + [Finish(g.order[i], e, log2)];
    }
  }

  /** The loop body: one candidate into the map. */
  method AddCandidate<P, D>(order: seq<Text>, entries: map<Text, Entry<D>>, c: Candidate<P>, first: Candidate<P> -> D,
                            next: (D, Candidate<P>) -> D)
    returns (order': seq<Text>, entries': map<Text, Entry<D>>)
    ensures Groups(order', entries') == Added(Groups(order, entries), c, first, next)
  {
    if c.identity == [] { return order, entries; }
    if c.identity !in entries {
      order' := order + [c.identity];
      entries' := entries[c.identity := Entry(first(c), c.score, [c.source], WithAttribution([], c.attribution))];
      return;
    }
    var e := entries[c.identity];
    var sources := WithSource(e.sources, c.source);
    var attribution := WithAttribution(e.attribution, c.attribution);
    var peak := Larger(e.peak, c.score);
    return order, entries[c.identity := Entry(next(e.detail, c), peak, sources, attribution)];
  }

  /** What a result shows of its candidates besides its key. */
  ghost predicate ShowsTrack(cs: seq<Candidate<TrackInfo>>, m: Merged<Best>) {
    && Attributes(cs, m.identity, m.attribution) && OfferedInOrder(cs, m.identity, m.attribution)
    && forall part :: ShowsPart(cs, m.identity, part, m.detail.info)
  }

  ghost predicate ShowsArtist(cs: seq<Candidate<ArtistInfo>>, m: Merged<ArtistInfo>) {
    && Attributes(cs, m.identity, m.attribution) && OfferedInOrder(cs, m.identity, m.attribution)
    && (forall n: nat :: FirstOf(cs, m.identity, n, false) ==> m.detail.name == cs[n].payload.name)
    && (forall n: nat :: FirstOf(cs, m.identity, n, true) ==> m.detail.artistMbid == cs[n].payload.artistMbid)
  }

  lemma ResultShowsTrack(cs: seq<Candidate<TrackInfo>>, log2: nat -> real, m: Merged<Best>)
    requires m in Merge(cs, FirstTrack, NextTrack, log2)
    ensures ShowsTrack(cs, m)
  {
    ResultIsGroup(cs, FirstTrack, NextTrack, log2, m);
    AttributionIsKept(cs, FirstTrack, NextTrack, m.identity);
    forall part ensures ShowsPart(cs, m.identity, part, m.detail.info) {
      TrackShows(cs, m.identity, part);
    }
  }

  lemma ResultShowsArtist(cs: seq<Candidate<ArtistInfo>>, log2: nat -> real, m: Merged<ArtistInfo>)
    requires m in Merge(cs, FirstArtist, NextArtist, log2)
    ensures ShowsArtist(cs, m)
  {
    ResultIsGroup(cs, FirstArtist, NextArtist, log2, m);
    AttributionIsKept(cs, FirstArtist, NextArtist, m.identity);
    forall n: nat | FirstOf(cs, m.identity, n, false) ensures m.detail.name == cs[n].payload.name {
      ArtistShows(cs, m.identity, n, false);
    }
    forall n: nat | FirstOf(cs, m.identity, n, true) ensures m.detail.artistMbid == cs[n].payload.artistMbid {
      ArtistShows(cs, m.identity, n, true);
    }
  }

  method MergeTracks(cs: seq<Candidate<TrackInfo>>, log2: nat -> real) returns (out: seq<Merged<Best>>)
    ensures Sorted(Ranked<Best>, out)
    ensures forall k :: k in Keys(out) <==> IsKey(cs, log2, k)
    ensures out == Merge(cs, FirstTrack, NextTrack, log2)
    ensures forall m :: m in out ==> ShowsTrack(cs, m)
  {
    out := MergeCandidates(cs, FirstTrack, NextTrack, log2);
    forall m | m in out ensures ShowsTrack(cs, m) { ResultShowsTrack(cs, log2, m); }
    ResultsAreRanked(cs, FirstTrack, NextTrack, log2);
    forall k ensures k in Keys(out) <==> IsKey(cs, log2, k) { KeysAreExact(cs, FirstTrack, NextTrack, log2, k); }
  }

  method MergeArtists(cs: seq<Candidate<ArtistInfo>>, log2: nat -> real) returns (out: seq<Merged<ArtistInfo>>)
    ensures Sorted(Ranked<ArtistInfo>, out)
    ensures forall k :: k in Keys(out) <==> IsKey(cs, log2, k)
    ensures out == Merge(cs, FirstArtist, NextArtist, log2)
    ensures forall m :: m in out ==> ShowsArtist(cs, m)
  {
    out := MergeCandidates(cs, FirstArtist, NextArtist, log2);
    forall m | m in out ensures ShowsArtist(cs, m) { ResultShowsArtist(cs, log2, m); }
    ResultsAreRanked(cs, FirstArtist, NextArtist, log2);
    forall k ensures k in Keys(out) <==> IsKey(cs, log2, k) { KeysAreExact(cs, FirstArtist, NextArtist, log2, k); }
  }
}
