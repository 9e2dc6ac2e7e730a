/**
 * The canonical printer behind the request fingerprint: JSON text with sorted property names, and the theorem that
 * two bodies print alike exactly when they differ only in property order and in properties that are undefined.
 * Strings are UTF-16 code units and escaping follows section 7 of RFC 8259, lone surrogates being escaped as well.
 */
module CanonicalJson {
  import opened Ordering
  import opened Common

  /** A parsed body. A number is identified with its printed numeral. */
  datatype Json =
    | Undefined
    | Null
    | Bool(b: bool)
    | Num(numeral: Text)
    | Str(text: Text)
    | Arr(items: Items)
    | Obj(fields: Fields)

  datatype Items = NoItems | Item(head: Json, tail: Items)

  datatype Fields = NoFields | Field(name: Text, value: Json, rest: Fields)

  // ---- Well-formed values ------------------------------------------------------------------------------------

  /** Digits, sign, point and exponent. */
  predicate Numeric(u: Unit) {
    48 <= u <= 57 || u == 43 || u == 45 || u == 46 || u == 101
  }

  predicate IsNumeral(t: Text) {
    t != [] && (48 <= t[0] <= 57 || t[0] == 45) && forall i :: 0 <= i < |t| ==> Numeric(t[i])
  }

  function Names(fs: Fields): set<Text> {
    match fs
    case NoFields => {}
    case Field(name, _, rest) => {name} + Names(rest)
  }

  /** Numerals are numerals and no object has a property twice. */
  predicate WellFormed(v: Json) {
    match v
    case Num(numeral) => IsNumeral(numeral)
    case Arr(items) => WellFormedItems(items)
    case Obj(fields) => WellFormedFields(fields)
    case _ => true
  }

  predicate WellFormedItems(items: Items) {
    items.Item? ==> WellFormed(items.head) && WellFormedItems(items.tail)
  }

  predicate WellFormedFields(fs: Fields) {
    fs.Field? ==> WellFormed(fs.value) && fs.name !in Names(fs.rest) && WellFormedFields(fs.rest)
  }

  // ---- Equality up to order and undefined properties ---------------------------------------------------------

  /** The value of a property, if it has one and that is not undefined. */
  function Lookup(fs: Fields, name: Text): Option<Json> {
    match fs
    case NoFields => None
    case Field(n, v, rest) => if n == name then (if v.Undefined? then None else Some(v)) else Lookup(rest, name)
  }

  function DefinedNames(fs: Fields): set<Text> {
    match fs
    case NoFields => {}
    case Field(n, v, rest) => (if v.Undefined? then {} else {n}) + DefinedNames(rest)
  }

  predicate Equiv(a: Json, b: Json)
    decreases a
  {
    match a
    case Arr(items) => b.Arr? && EquivItems(items, b.items)
    case Obj(fields) => b.Obj? && DefinedNames(fields) == DefinedNames(b.fields) && Covers(b.fields, fields)
    case _ => a == b
  }

  predicate EquivItems(a: Items, b: Items)
    decreases a
  {
    match a
    case NoItems => b.NoItems?
    case Item(head, tail) => b.Item? && Equiv(head, b.head) && EquivItems(tail, b.tail)
  }

  /** Every defined property of `fs` has an equivalent counterpart in `gs`. */
  predicate Covers(gs: Fields, fs: Fields)
    decreases fs
  {
    match fs
    case NoFields => true
    case Field(name, value, rest) =>
      (!value.Undefined? ==> Lookup(gs, name).Some? && Equiv(value, Lookup(gs, name).value)) && Covers(gs, rest)
  }

  // ---- The printer -------------------------------------------------------------------------------------------

  const QUOTE: Unit := 34
  const BACKSLASH: Unit := 92
  const COMMA: Unit := 44
  const COLON: Unit := 58
  const NEWLINE: Unit := 10

  predicate High(u: Unit) {
    0xD800 <= u < 0xDC00
  }

  predicate Low(u: Unit) {
    0xDC00 <= u < 0xE000
  }

  function HexDigit(n: int): Unit
    requires 0 <= n < 16
  {
    if n < 10 then 48 + n else 87 + n
  }

  function Hex4(u: Unit): Text {
    [HexDigit(u / 4096), HexDigit(u / 256 % 16), HexDigit(u / 16 % 16), HexDigit(u % 16)]
  }

  function EscapeUnit(u: Unit): Text {
    if u == QUOTE || u == BACKSLASH then [BACKSLASH, u]
    else if u == 8 then [BACKSLASH, 98]
    else if u == 9 then [BACKSLASH, 116]
    else if u == 10 then [BACKSLASH, 110]
    else if u == 12 then [BACKSLASH, 102]
    else if u == 13 then [BACKSLASH, 114]
    else if u < 32 || High(u) || Low(u) then [BACKSLASH, 117] + Hex4(u)
    else [u]
  }

  /** Whether the string starts with a surrogate pair, which is printed as it is. */
  predicate Paired(s: Text) {
    |s| >= 2 && High(s[0]) && Low(s[1])
  }

  /** How many units the first character has. */
  function Width(s: Text): nat
    requires s != []
  {
    if Paired(s) then 2 else 1
  }

  /** The printed form of the first character. */
  function Printed(s: Text): Text
    requires s != []
  {
    if Paired(s) then [s[0], s[1]] else EscapeUnit(s[0])
  }

  function Escape(s: Text): Text {
    if s == [] then [] else Printed(s) + Escape(s[Width(s)..])
  }

  function Quote(s: Text): Text {
    [QUOTE] + Escape(s) + [QUOTE]
  }

  function Canon(v: Json): Text {
    match v
    case Undefined => [117, 110, 100, 101, 102, 105, 110, 101, 100]
    case Null => [110, 117, 108, 108]
    case Bool(b) => if b then [116, 114, 117, 101] else [102, 97, 108, 115, 101]
    case Num(numeral) => numeral
    case Str(text) => Quote(text)
    case Arr(items) => [91] + CanonItems(items) + [93]
    case Obj(fields) => [123] + Join(Sort(KeyBefore, Entries(fields))) + [125]
  }

  function CanonItems(items: Items): Text {
    match items
    case NoItems => []
    case Item(head, NoItems) => Canon(head)
    case Item(head, tail) => Canon(head) + ([COMMA] + CanonItems(tail))
  }

  /** The defined properties with their printed values. */
  function Entries(fs: Fields): seq<(Text, Text)> {
    match fs
    case NoFields => []
    case Field(name, value, rest) =>
      if value.Undefined? then Entries(rest) else [(name, Canon(value))] + Entries(rest)
  }

  predicate KeyBefore(a: (Text, Text), b: (Text, Text)) {
    Less(a.0, b.0)
  }

  function Entry(e: (Text, Text)): Text {
    Quote(e.0) + ([COLON] + e.1)
  }

  function Join(es: seq<(Text, Text)>): Text {
    if es == [] then []
    else if |es| == 1 then Entry(es[0])
    else Entry(es[0]) + ([COMMA] + Join(es[1..]))
  }

  /** What is hashed. */
  function Preimage(verb: Text, route: Text, body: Json): Text {
    verb + [NEWLINE] + route + [NEWLINE] + Canon(body)
  }

  // ---- Escapes -----------------------------------------------------------------------------------------------

  /**
   * A unit is printed as it is unless it must be escaped, in two units where there is such an escape and otherwise in
   * six without a capital hexadecimal digit.
   */
  lemma EscapeIsMinimal(u: Unit)
    ensures |EscapeUnit(u)| == if u in {8, 9, 10, 12, 13, 34, 92} then 2
                               else if u < 32 || 0xD800 <= u < 0xE000 then 6 else 1
    ensures |EscapeUnit(u)| == 1 ==> EscapeUnit(u) == [u]
    ensures |EscapeUnit(u)| == 6 ==> forall i :: 0 <= i < 6 ==> !(65 <= EscapeUnit(u)[i] <= 70)
  {
    if |EscapeUnit(u)| == 6 {
      forall n | 0 <= n < 16 ensures !(65 <= HexDigit(n) <= 70) {
      }
      assert EscapeUnit(u)[2..] == Hex4(u);
    }
  }

  /** Texts without quotes, backslashes, controls and lone surrogates are printed as they are. */
  lemma {:induction false} OrdinaryIsPrinted(s: Text)
    requires Ordinary(s)
    ensures Escape(s) == s
    decreases |s|
  {
    if s != [] {
      OrdinaryIsPrinted(s[Width(s)..]);
      if !Paired(s) { EscapeIsMinimal(s[0]); }
    }
  }

  predicate Ordinary(s: Text)
    decreases |s|
  {
    if s == [] then true
    else if |s| >= 2 && 0xD800 <= s[0] < 0xDC00 && 0xDC00 <= s[1] < 0xE000 then Ordinary(s[2..])
    else 32 <= s[0] && s[0] != 34 && s[0] != 92 && !(0xD800 <= s[0] < 0xE000) && Ordinary(s[1..])
  }

  // ---- A bracket scanner -------------------------------------------------------------------------------------

  datatype Mode = Plain | InString | AfterBackslash

  datatype Scan = Scan(depth: nat, mode: Mode)

  predicate IsDelimiter(u: Unit) {
    u == COMMA || u == COLON || u == 93 || u == 125
  }

  /** One unit of scanning; a delimiter outside all brackets stops it. */
  function ScanUnit(s: Scan, u: Unit): Option<Scan> {
    match s.mode
    case AfterBackslash => Some(s.(mode := InString))
    case InString =>
      Some(if u == QUOTE then s.(mode := Plain) else if u == BACKSLASH then s.(mode := AfterBackslash) else s)
    case Plain =>
      if u == QUOTE then Some(s.(mode := InString))
      else if u == 91 || u == 123 then Some(s.(depth := s.depth + 1))
      else if IsDelimiter(u) && s.depth == 0 then None
      else if u == 93 || u == 125 then Some(s.(depth := s.depth - 1))
      else Some(s)
  }

  function ScanText(s: Scan, t: Text): Option<Scan>
    decreases |t|
  {
    if t == [] then Some(s)
    else
      var next := ScanUnit(s, t[0]);
      if next.None? then None else ScanText(next.value, t[1..])
  }

  lemma {:induction false} ScanConcat(s: Scan, t: Text, u: Text)
    ensures ScanText(s, t + u) == var m := ScanText(s, t); if m.None? then None else ScanText(m.value, u)
    decreases |t|
  {
    if t == [] {
      assert t + u == u;
    } else {
      assert (t + u)[0] == t[0] && (t + u)[1..] == t[1..] + u;
      var next := ScanUnit(s, t[0]);
      if next.Some? { ScanConcat(next.value, t[1..], u); }
    }
  }

  /** Balanced text with no delimiter of its own level. */
  ghost predicate Neutral(t: Text) {
    t != [] && forall d: nat :: ScanText(Scan(d, Plain), t) == Some(Scan(d, Plain))
  }

  /** What may follow a value: nothing, or a delimiter. */
  predicate Ends(r: Text) {
    r == [] || IsDelimiter(r[0])
  }

  /** Neutral texts are prefix-free. */
  lemma NeutralPrefixFree(t: Text, r: Text, t': Text, r': Text)
    requires Neutral(t) && Neutral(t') && Ends(r) && Ends(r') && t + r == t' + r'
    ensures t == t' && r == r'
  {
    if |t| < |t'| {
      ShorterIsImpossible(t, r, t', r');
    } else if |t'| < |t| {
      ShorterIsImpossible(t', r', t, r);
    }
    assert t == (t + r)[..|t|] && t' == (t' + r')[..|t'|];
    assert r == (t + r)[|t|..] && r' == (t' + r')[|t'|..];
  }

  lemma ShorterIsImpossible(t: Text, r: Text, t': Text, r': Text)
    requires Neutral(t) && Neutral(t') && Ends(r) && t + r == t' + r'
    ensures |t| >= |t'|
  {
    if |t| < |t'| {
      var more := t'[|t|..];
      assert t' == t + more by {
        assert t == (t + r)[..|t|] && t' == (t' + r')[..|t'|];
      }
      assert more[0] == (t' + r')[|t|] == r[0];
      ScanConcat(Scan(0, Plain), t, more);
      assert false;
    }
  }

  // ---- Printed values are neutral ----------------------------------------------------------------------------

  lemma {:induction false} EscapeStaysInString(d: nat, s: Text)
    ensures ScanText(Scan(d, InString), Escape(s)) == Some(Scan(d, InString))
  {
    if s != [] {
      var q := Scan(d, InString);
      EscapeStaysInString(d, s[Width(s)..]);
      ScanConcat(q, Printed(s), Escape(s[Width(s)..]));
      if Paired(s) { ScanTwo(q, s[0], s[1]); } else { UnitStaysInString(d, s[0]); }
    }
  }

  lemma ScanOne(s: Scan, u: Unit)
    ensures ScanText(s, [u]) == ScanUnit(s, u)
  {
    assert [u][1..] == [];
  }

  lemma ScanTwo(s: Scan, u: Unit, v: Unit)
    ensures ScanText(s, [u, v]) == var m := ScanUnit(s, u); if m.None? then None else ScanUnit(m.value, v)
  {
    assert [u, v][1..] == [v];
    var m := ScanUnit(s, u);
    if m.Some? { ScanOne(m.value, v); }
  }

  lemma UnitStaysInString(d: nat, u: Unit)
    ensures ScanText(Scan(d, InString), EscapeUnit(u)) == Some(Scan(d, InString))
  {
    var q, e := Scan(d, InString), EscapeUnit(u);
    if |e| == 6 {
      var h := Hex4(u);
      ScanTwo(q, h[0], h[1]);
      ScanTwo(q, h[2], h[3]);
      ScanConcat(q, [h[0], h[1]], [h[2], h[3]]);
      assert h == [h[0], h[1]] + [h[2], h[3]];
      assert e == [BACKSLASH, 117] + h;
      ScanConcat(q, [BACKSLASH, 117], h);
      ScanTwo(q, BACKSLASH, 117);
    } else if |e| == 2 {
      ScanTwo(q, e[0], e[1]);
    } else {
      ScanOne(q, u);
    }
  }

  lemma QuoteNeutral(s: Text)
    ensures Neutral(Quote(s))
  {
    forall d: nat ensures ScanText(Scan(d, Plain), Quote(s)) == Some(Scan(d, Plain)) {
      ScanConcat(Scan(d, Plain), [QUOTE], Escape(s));
      ScanConcat(Scan(d, Plain), [QUOTE] + Escape(s), [QUOTE]);
      ScanOne(Scan(d, Plain), QUOTE);
      ScanOne(Scan(d, InString), QUOTE);
      EscapeStaysInString(d, s);
    }
  }

  /** Text without quotes, brackets or delimiters leaves the scanner where it was. */
  lemma {:induction false} PlainNeutral(t: Text, d: nat)
    requires forall i :: 0 <= i < |t| ==> t[i] != QUOTE && t[i] != 91 && t[i] != 123 && !IsDelimiter(t[i])
    ensures ScanText(Scan(d, Plain), t) == Some(Scan(d, Plain))
  {
    if t != [] { PlainNeutral(t[1..], d); }
  }

  lemma PlainIsNeutral(t: Text)
    requires t != [] && forall i :: 0 <= i < |t| ==> t[i] != QUOTE && t[i] != 91 && t[i] != 123 && !IsDelimiter(t[i])
    ensures Neutral(t)
  {
    forall d: nat ensures ScanText(Scan(d, Plain), t) == Some(Scan(d, Plain)) { PlainNeutral(t, d); }
  }

  /** Inside brackets the scanner gets past a text and is where it was. */
  ghost predicate Inner(t: Text) {
    forall d: nat | d >= 1 :: ScanText(Scan(d, Plain), t) == Some(Scan(d, Plain))
  }

  lemma InnerSeparated(t: Text, separator: Unit, u: Text)
    requires Neutral(t) && Inner(u) && (separator == COMMA || separator == COLON)
    ensures Inner(t + ([separator] + u))
  {
    forall d: nat | d >= 1 ensures ScanText(Scan(d, Plain), t + ([separator] + u)) == Some(Scan(d, Plain)) {
      ScanConcat(Scan(d, Plain), t, [separator] + u);
      ScanConcat(Scan(d, Plain), [separator], u);
      ScanOne(Scan(d, Plain), separator);
    }
  }

  lemma BracketsNeutral(open: Unit, t: Text, close: Unit)
    requires Inner(t) && (open == 91 || open == 123) && (close == 93 || close == 125)
    ensures Neutral([open] + t + [close])
  {
    forall d: nat ensures ScanText(Scan(d, Plain), [open] + t + [close]) == Some(Scan(d, Plain)) {
      ScanConcat(Scan(d, Plain), [open], t);
      ScanConcat(Scan(d, Plain), [open] + t, [close]);
      ScanOne(Scan(d, Plain), open);
      ScanOne(Scan(d + 1, Plain), close);
      assert ScanText(Scan(d + 1, Plain), t) == Some(Scan(d + 1, Plain));
    }
  }

  lemma {:induction false} CanonNeutral(v: Json)
    requires WellFormed(v)
    ensures Neutral(Canon(v))
    decreases v
  {
    match v
    case Str(text) => QuoteNeutral(text);
    case Arr(items) => ItemsInner(items); BracketsNeutral(91, CanonItems(items), 93);
    case Obj(fields) =>
      EntriesNeutral(fields);
      SortMultiset(KeyBefore, Entries(fields));
      JoinInner(Sort(KeyBefore, Entries(fields)));
      BracketsNeutral(123, Join(Sort(KeyBefore, Entries(fields))), 125);
    case _ => PlainIsNeutral(Canon(v));
  }

  lemma {:induction false} ItemsInner(items: Items)
    requires WellFormedItems(items)
    ensures Inner(CanonItems(items))
    decreases items
  {
    match items
    case NoItems =>
    case Item(head, NoItems) => CanonNeutral(head);
    case Item(head, tail) =>
      CanonNeutral(head);
      ItemsInner(tail);
      InnerSeparated(Canon(head), COMMA, CanonItems(tail));
  }

  ghost predicate NeutralValues(es: seq<(Text, Text)>) {
    forall e :: e in es ==> Neutral(e.1)
  }

  lemma {:induction false} EntriesNeutral(fs: Fields)
    requires WellFormedFields(fs)
    ensures NeutralValues(Entries(fs))
    decreases fs
  {
    if fs.Field? {
      CanonNeutral(fs.value);
      EntriesNeutral(fs.rest);
    }
  }

  lemma {:induction false} JoinInner(es: seq<(Text, Text)>)
    requires NeutralValues(es)
    ensures Inner(Join(es))
  {
    if es != [] {
      EntryInner(es[0]);
      if |es| > 1 {
        JoinInner(es[1..]);
        var rest := Join(es[1..]);
        forall d: nat | d >= 1 ensures ScanText(Scan(d, Plain), Join(es)) == Some(Scan(d, Plain)) {
          ScanConcat(Scan(d, Plain), Entry(es[0]), [COMMA] + rest);
          ScanConcat(Scan(d, Plain), [COMMA], rest);
          ScanOne(Scan(d, Plain), COMMA);
        }
      }
    }
  }

  lemma EntryInner(e: (Text, Text))
    requires Neutral(e.1)
    ensures Inner(Entry(e))
  {
    QuoteNeutral(e.0);
    InnerSeparated(Quote(e.0), COLON, e.1);
  }

  // ---- Strings are printed injectively -----------------------------------------------------------------------

  lemma HexDigitInjective(m: int, n: int)
    requires 0 <= m < 16 && 0 <= n < 16 && HexDigit(m) == HexDigit(n)
    ensures m == n
  {
  }

  lemma Recomposed(u: Unit)
    ensures u == 4096 * (u / 4096) + 256 * (u / 256 % 16) + 16 * (u / 16 % 16) + u % 16
  {
    var a, b, c := u / 16, u / 256, u / 4096;
    assert a / 16 == b && b / 16 == c;
    assert u == 16 * a + u % 16 && a == 16 * b + a % 16 && b == 16 * c + b % 16;
  }

  lemma HexInjective(u: Unit, v: Unit)
    requires Hex4(u) == Hex4(v)
    ensures u == v
  {
    var h, k := Hex4(u), Hex4(v);
    assert h[0] == k[0] && h[1] == k[1] && h[2] == k[2] && h[3] == k[3];
    HexDigitInjective(u / 4096, v / 4096);
    HexDigitInjective(u / 256 % 16, v / 256 % 16);
    HexDigitInjective(u / 16 % 16, v / 16 % 16);
    HexDigitInjective(u % 16, v % 16);
    Recomposed(u);
    Recomposed(v);
  }

  /** The printed form of a single unit, whatever follows, tells the unit. */
  lemma UnitDecodes(u: Unit, r: Text, v: Unit, r': Text)
    requires EscapeUnit(u) + r == EscapeUnit(v) + r'
    ensures u == v && r == r'
  {
    var e, f := EscapeUnit(u), EscapeUnit(v);
    assert e[0] == (e + r)[0] && f[0] == (f + r')[0];
    if |e| >= 2 && |f| >= 2 {
      assert e[1] == (e + r)[1] && f[1] == (f + r')[1];
      if |e| == 6 && |f| == 6 {
        assert Hex4(u) == (e + r)[2..6] && Hex4(v) == (f + r')[2..6];
        HexInjective(u, v);
      }
    }
    assert u == v;
    assert r == (e + r)[|e|..] && r' == (f + r')[|f|..];
  }

  /** A raw surrogate is printed only as half of a pair, so the first printed unit tells pairs from the rest. */
  lemma CharacterDecodes(s: Text, r: Text, t: Text, r': Text)
    requires s != [] && t != [] && Printed(s) + r == Printed(t) + r'
    ensures Width(s) == Width(t) && s[..Width(s)] == t[..Width(t)] && r == r'
  {
    var e, f := Printed(s), Printed(t);
    assert e[0] == (e + r)[0] && f[0] == (f + r')[0];
    assert Paired(s) <==> Paired(t);
    if Paired(s) {
      assert e[1] == (e + r)[1] && f[1] == (f + r')[1];
      assert r == (e + r)[2..] && r' == (f + r')[2..];
    } else {
      UnitDecodes(s[0], r, t[0], r');
    }
  }

  lemma EscapeEmpty(s: Text)
    ensures Escape(s) == [] <==> s == []
  {
    if s != [] { assert |Printed(s)| >= 1; }
  }

  lemma {:induction false} EscapeInjective(s: Text, t: Text)
    requires Escape(s) == Escape(t)
    ensures s == t
    decreases |s|
  {
    EscapeEmpty(s);
    EscapeEmpty(t);
    if s != [] && t != [] {
      var u, v := s[Width(s)..], t[Width(t)..];
      CharacterDecodes(s, Escape(u), t, Escape(v));
      EscapeInjective(u, v);
      assert s == s[..Width(s)] + u && t == t[..Width(t)] + v;
    }
  }

  lemma QuoteInjective(s: Text, t: Text)
    requires Quote(s) == Quote(t)
    ensures s == t
  {
    assert Escape(s) == Quote(s)[1..|Quote(s)| - 1];
    assert Escape(t) == Quote(t)[1..|Quote(t)| - 1];
    EscapeInjective(s, t);
  }

  // ---- Equal text means equivalent values --------------------------------------------------------------------

  lemma {:induction false} JoinInjective(es: seq<(Text, Text)>, fs: seq<(Text, Text)>)
    requires NeutralValues(es) && NeutralValues(fs) && Join(es) == Join(fs)
    ensures es == fs
  {
    JoinNonEmpty(es);
    JoinNonEmpty(fs);
    if es != [] && fs != [] {
      var r, r' := AfterFirst(es), AfterFirst(fs);
      EntryDecodes(es[0], r, fs[0], r');
      assert |es| > 1 <==> |fs| > 1;
      if |es| > 1 {
        assert Join(es[1..]) == r[1..] && Join(fs[1..]) == r'[1..];
        JoinInjective(es[1..], fs[1..]);
      }
      assert es == [es[0]] + es[1..] && fs == [fs[0]] + fs[1..];
    }
  }

  /** What the joined text holds behind its first entry. */
  function AfterFirst(es: seq<(Text, Text)>): (r: Text)
    requires es != []
    ensures Join(es) == Entry(es[0]) + r && Ends(r) && (|es| > 1 <==> r != [])
  {
    if |es| == 1 then [] else [COMMA] + Join(es[1..])
  }

  lemma JoinNonEmpty(es: seq<(Text, Text)>)
    ensures Join(es) == [] <==> es == []
  {
    if es != [] { assert |Entry(es[0])| >= 2; }
  }

  lemma EntryDecodes(e: (Text, Text), r: Text, f: (Text, Text), r': Text)
    requires Neutral(e.1) && Neutral(f.1) && Ends(r) && Ends(r') && Entry(e) + r == Entry(f) + r'
    ensures e == f && r == r'
  {
    var a, b := [COLON] + (e.1 + r), [COLON] + (f.1 + r');
    EntryThen(e, r);
    EntryThen(f, r');
    QuoteNeutral(e.0);
    QuoteNeutral(f.0);
    NeutralPrefixFree(Quote(e.0), a, Quote(f.0), b);
    QuoteInjective(e.0, f.0);
    assert e.1 + r == a[1..] && f.1 + r' == b[1..];
    NeutralPrefixFree(e.1, r, f.1, r');
  }

  lemma EntryThen(e: (Text, Text), r: Text)
    ensures Entry(e) + r == Quote(e.0) + ([COLON] + (e.1 + r))
  {
  }

  /** The first unit of a printed value tells its kind. */
  function Tag(v: Json): int {
    match v
    case Undefined => 0
    case Null => 1
    case Bool(_) => 2
    case Num(_) => 3
    case Str(_) => 4
    case Arr(_) => 5
    case Obj(_) => 6
  }

  lemma SameKind(a: Json, b: Json)
    requires WellFormed(a) && WellFormed(b) && Canon(a) == Canon(b)
    ensures Tag(a) == Tag(b)
  {
    assert Canon(a)[0] == Canon(b)[0];
  }

  /** The brackets around an array or an object come off. */
  lemma Unwrapped(open: Unit, a: Text, b: Text, close: Unit)
    requires [open] + a + [close] == [open] + b + [close]
    ensures a == b
  {
    var u, v := [open] + a + [close], [open] + b + [close];
    assert a == u[1..|u| - 1] && b == v[1..|v| - 1];
  }

  lemma ArraysUnwrap(a: Items, b: Items)
    requires Canon(Arr(a)) == Canon(Arr(b))
    ensures CanonItems(a) == CanonItems(b)
  {
    Unwrapped(91, CanonItems(a), CanonItems(b), 93);
  }

  lemma ObjectsUnwrap(a: Fields, b: Fields)
    requires WellFormedFields(a) && WellFormedFields(b) && Canon(Obj(a)) == Canon(Obj(b))
    ensures SameElements(Entries(a), Entries(b)) && DefinedNames(a) == DefinedNames(b)
  {
    Unwrapped(123, Join(Sort(KeyBefore, Entries(a))), Join(Sort(KeyBefore, Entries(b))), 125);
    EntriesInjective(a, b);
  }

  lemma {:induction false} CanonInjective(a: Json, b: Json)
    requires WellFormed(a) && WellFormed(b) && Canon(a) == Canon(b)
    ensures Equiv(a, b)
    decreases a
  {
    SameKind(a, b);
    match a
    case Undefined =>
    case Null =>
    case Bool(_) => assert Canon(a)[0] == Canon(b)[0];
    case Num(_) =>
    case Str(text) => QuoteInjective(text, b.text);
    case Arr(items) =>
      ArraysUnwrap(items, b.items);
      ItemsInjective(items, b.items);
    case Obj(fields) =>
      ObjectsUnwrap(fields, b.fields);
      CoversWhenListed(fields, b.fields);
  }

  /** Equal object texts list the same properties with the same printed values. */
  lemma EntriesInjective(fs: Fields, gs: Fields)
    requires WellFormedFields(fs) && WellFormedFields(gs)
    requires Join(Sort(KeyBefore, Entries(fs))) == Join(Sort(KeyBefore, Entries(gs)))
    ensures SameElements(Entries(fs), Entries(gs)) && DefinedNames(fs) == DefinedNames(gs)
  {
    EntriesNeutral(fs);
    EntriesNeutral(gs);
    SortMultiset(KeyBefore, Entries(fs));
    SortMultiset(KeyBefore, Entries(gs));
    JoinInjective(Sort(KeyBefore, Entries(fs)), Sort(KeyBefore, Entries(gs)));
    NamesOfEntries(fs);
    NamesOfEntries(gs);
  }

  lemma {:induction false} ItemsInjective(a: Items, b: Items)
    requires WellFormedItems(a) && WellFormedItems(b) && CanonItems(a) == CanonItems(b)
    ensures EquivItems(a, b)
    decreases a
  {
    if a.Item? { CanonNeutral(a.head); }
    if b.Item? { CanonNeutral(b.head); }
    if a.Item? && b.Item? {
      var r := if a.tail.NoItems? then [] else [COMMA] + CanonItems(a.tail);
      var r' := if b.tail.NoItems? then [] else [COMMA] + CanonItems(b.tail);
      assert CanonItems(a) == Canon(a.head) + r && CanonItems(b) == Canon(b.head) + r';
      NeutralPrefixFree(Canon(a.head), r, Canon(b.head), r');
      CanonInjective(a.head, b.head);
      if a.tail.Item? && b.tail.Item? {
        assert CanonItems(a.tail) == r[1..] && CanonItems(b.tail) == r'[1..];
        ItemsInjective(a.tail, b.tail);
      }
    }
  }

  lemma {:induction false} NamesOfEntries(fs: Fields)
    ensures forall n :: n in DefinedNames(fs) <==> exists t :: (n, t) in Entries(fs)
    ensures DefinedNames(fs) <= Names(fs)
    decreases fs
  {
    if fs.Field? {
      NamesOfEntries(fs.rest);
      if !fs.value.Undefined? {
        assert (fs.name, Canon(fs.value)) in Entries(fs);
        assert forall e :: e in Entries(fs.rest) ==> e in Entries(fs);
      }
    }
  }

  /** A listed entry is the printed form of the property it names. */
  lemma {:induction false} EntryIsLookup(fs: Fields, e: (Text, Text))
    requires WellFormedFields(fs) && e in Entries(fs)
    ensures Lookup(fs, e.0).Some? && Canon(Lookup(fs, e.0).value) == e.1 && WellFormed(Lookup(fs, e.0).value)
    ensures e.0 in Names(fs)
    decreases fs
  {
    if e in Entries(fs.rest) { EntryIsLookup(fs.rest, e); }
  }

  lemma {:induction false} LookupIsEntry(fs: Fields, name: Text)
    requires WellFormedFields(fs) && Lookup(fs, name).Some?
    ensures (name, Canon(Lookup(fs, name).value)) in Entries(fs) && WellFormed(Lookup(fs, name).value)
    ensures name in Names(fs)
    decreases fs
  {
    if fs.name != name { LookupIsEntry(fs.rest, name); }
  }

  lemma {:induction false} CoversWhenListed(fs: Fields, gs: Fields)
    requires WellFormedFields(fs) && WellFormedFields(gs)
    requires forall e :: e in Entries(fs) ==> e in Entries(gs)
    ensures Covers(gs, fs)
    decreases fs
  {
    if fs.Field? {
      if !fs.value.Undefined? {
        assert (fs.name, Canon(fs.value)) in Entries(fs);
        EntryIsLookup(gs, (fs.name, Canon(fs.value)));
        CanonInjective(fs.value, Lookup(gs, fs.name).value);
      }
      assert forall e :: e in Entries(fs.rest) ==> e in Entries(fs);
      CoversWhenListed(fs.rest, gs);
    }
  }

  // ---- Equivalent values print alike -------------------------------------------------------------------------

  /** Two objects with the same defined names list the same entries if one lists all of the other's. */
  lemma EntriesMatch(fs: Fields, gs: Fields)
    requires WellFormedFields(fs) && WellFormedFields(gs) && DefinedNames(fs) == DefinedNames(gs)
    requires forall e :: e in Entries(fs) ==> e in Entries(gs)
    ensures SameElements(Entries(fs), Entries(gs))
  {
    NamesOfEntries(fs);
    NamesOfEntries(gs);
    forall e | e in Entries(gs) ensures e in Entries(fs) {
      assert e == (e.0, e.1);
      assert e.0 in DefinedNames(fs);
      var t :| (e.0, t) in Entries(fs);
      EntryIsLookup(gs, e);
      EntryIsLookup(gs, (e.0, t));
    }
  }

  lemma {:induction false} EquivPrintsAlike(a: Json, b: Json)
    requires WellFormed(a) && WellFormed(b) && Equiv(a, b)
    ensures Canon(a) == Canon(b)
    decreases a
  {
    match a
    case Arr(items) => ItemsPrintAlike(items, b.items);
    case Obj(fields) =>
      ListedWhenCovers(fields, b.fields);
      EntriesMatch(fields, b.fields);
      SameEntriesSortAlike(fields, b.fields);
    case _ =>
  }

  lemma {:induction false} ItemsPrintAlike(a: Items, b: Items)
    requires WellFormedItems(a) && WellFormedItems(b) && EquivItems(a, b)
    ensures CanonItems(a) == CanonItems(b)
    decreases a
  {
    if a.Item? {
      EquivPrintsAlike(a.head, b.head);
      ItemsPrintAlike(a.tail, b.tail);
    }
  }

  lemma {:induction false} ListedWhenCovers(fs: Fields, gs: Fields)
    requires WellFormedFields(fs) && WellFormedFields(gs) && Covers(gs, fs)
    ensures forall e :: e in Entries(fs) ==> e in Entries(gs)
    decreases fs
  {
    if fs.Field? {
      ListedWhenCovers(fs.rest, gs);
      if !fs.value.Undefined? {
        LookupIsEntry(gs, fs.name);
        EquivPrintsAlike(fs.value, Lookup(gs, fs.name).value);
      }
    }
  }

  lemma KeyBeforeIsStrict()
    ensures StrictOrder(KeyBefore)
  {
    forall e: (Text, Text) ensures !KeyBefore(e, e) { LessIrreflexive(e.0); }
    forall e, f, g | KeyBefore(e, f) && KeyBefore(f, g) ensures KeyBefore(e, g) { LessTransitive(e.0, f.0, g.0); }
  }

  lemma {:induction false} EntriesComparable(fs: Fields)
    requires WellFormedFields(fs)
    ensures Comparable(KeyBefore, Entries(fs))
    decreases fs
  {
    if fs.Field? {
      EntriesComparable(fs.rest);
      var es := Entries(fs);
      if !fs.value.Undefined? {
        forall j | 0 < j < |es| ensures KeyBefore(es[0], es[j]) || KeyBefore(es[j], es[0]) {
          assert es[j] in Entries(fs.rest);
          EntryIsLookup(fs.rest, es[j]);
          LessTotal(es[0].0, es[j].0);
        }
        forall i, j | 0 <= i < j < |es| ensures KeyBefore(es[i], es[j]) || KeyBefore(es[j], es[i]) {
          if i > 0 { assert es[i] == Entries(fs.rest)[i - 1] && es[j] == Entries(fs.rest)[j - 1]; }
        }
      }
    }
  }

  lemma SameEntriesSortAlike(fs: Fields, gs: Fields)
    requires WellFormedFields(fs) && WellFormedFields(gs) && SameElements(Entries(fs), Entries(gs))
    ensures Sort(KeyBefore, Entries(fs)) == Sort(KeyBefore, Entries(gs))
  {
    KeyBeforeIsStrict();
    EntriesComparable(fs);
    EntriesComparable(gs);
    SortMultiset(KeyBefore, Entries(fs));
    SortMultiset(KeyBefore, Entries(gs));
    SortIsSorted(KeyBefore, Entries(fs));
    SortIsSorted(KeyBefore, Entries(gs));
    SortedUnique(KeyBefore, Sort(KeyBefore, Entries(fs)), Sort(KeyBefore, Entries(gs)));
  }

  // ---- Main results ------------------------------------------------------------------------------------------

  /** The canonical form is exact. */
  lemma CanonicalFormIsExact(a: Json, b: Json)
    requires WellFormed(a) && WellFormed(b)
    ensures Canon(a) == Canon(b) <==> Equiv(a, b)
  {
    if Canon(a) == Canon(b) { CanonInjective(a, b); }
    if Equiv(a, b) { EquivPrintsAlike(a, b); }
  }

  /** Neither the order of two properties nor an undefined one matters, wherever in the object they stand. */
  lemma OrderAndUndefinedDoNotMatter(a: Text, x: Json, b: Text, y: Json, rest: Fields)
    requires WellFormed(Obj(Field(a, x, Field(b, y, rest))))
    ensures Equiv(Obj(Field(a, x, Field(b, y, rest))), Obj(Field(b, y, Field(a, x, rest))))
    ensures Equiv(Obj(Field(b, y, rest)), Obj(Field(a, Undefined, Field(b, y, rest))))
  {
    var fs, gs := Field(a, x, Field(b, y, rest)), Field(b, y, Field(a, x, rest));
    assert WellFormedFields(fs.rest) && WellFormedFields(gs.rest);
    assert forall e :: e in Entries(fs) <==> e in Entries(gs);
    SameEntriesSortAlike(fs, gs);
    CanonicalFormIsExact(Obj(fs), Obj(gs));
    CanonicalFormIsExact(Obj(fs.rest), Obj(Field(a, Undefined, fs.rest)));
  }

  // ---- The fingerprint preimage ------------------------------------------------------------------------------

  predicate NoNewline(t: Text) {
    NEWLINE !in t
  }

  lemma {:induction false} EscapeHasNoNewline(s: Text)
    ensures NoNewline(Escape(s))
    decreases |s|
  {
    if s != [] {
      assert NoNewline(Printed(s));
      EscapeHasNoNewline(s[Width(s)..]);
    }
  }

  lemma QuoteHasNoNewline(s: Text)
    ensures NoNewline(Quote(s))
  {
    EscapeHasNoNewline(s);
  }

  lemma {:induction false} JoinHasNoNewline(es: seq<(Text, Text)>)
    requires forall e :: e in es ==> NoNewline(e.1)
    ensures NoNewline(Join(es))
  {
    if es != [] {
      QuoteHasNoNewline(es[0].0);
      assert es[0] in es;
      if |es| > 1 { JoinHasNoNewline(es[1..]); }
    }
  }

  /** Canonical text is a single line, whatever the strings in it hold. */
  lemma {:induction false} CanonHasNoNewline(v: Json)
    requires WellFormed(v)
    ensures NoNewline(Canon(v))
    decreases v
  {
    match v
    case Num(numeral) => assert forall i :: 0 <= i < |numeral| ==> Numeric(numeral[i]);
    case Str(text) => QuoteHasNoNewline(text);
    case Arr(items) => ItemsHaveNoNewline(items);
    case Obj(fields) =>
      EntriesHaveNoNewline(fields);
      SortMultiset(KeyBefore, Entries(fields));
      JoinHasNoNewline(Sort(KeyBefore, Entries(fields)));
    case _ =>
  }

  lemma {:induction false} ItemsHaveNoNewline(items: Items)
    requires WellFormedItems(items)
    ensures NoNewline(CanonItems(items))
    decreases items
  {
    if items.Item? {
      CanonHasNoNewline(items.head);
      ItemsHaveNoNewline(items.tail);
    }
  }

  lemma {:induction false} EntriesHaveNoNewline(fs: Fields)
    requires WellFormedFields(fs)
    ensures forall e :: e in Entries(fs) ==> NoNewline(e.1)
    decreases fs
  {
    if fs.Field? {
      CanonHasNoNewline(fs.value);
      EntriesHaveNoNewline(fs.rest);
    }
  }

  /** The newline is where it was put, and the only one on the side that has none. */
  lemma NewlineBetween(t: Text, r: Text)
    ensures var w := t + ([NEWLINE] + r);
            && w[|t|] == NEWLINE && t == w[..|t|] && r == w[|t| + 1..]
            && (NoNewline(t) ==> forall k :: 0 <= k < |t| ==> w[k] != NEWLINE)
            && (NoNewline(r) ==> forall k :: |t| < k < |w| ==> w[k] != NEWLINE)
  {
    var w := t + ([NEWLINE] + r);
    assert t == w[..|t|] && r == w[|t| + 1..];
    assert forall k :: 0 <= k < |t| ==> w[k] == t[k];
    assert forall k :: |t| < k < |w| ==> w[k] == r[k - |t| - 1];
  }

  /** A text without newlines behind the last newline is determined, and so is what stands before it. */
  lemma SplitAtLastNewline(p: Text, t: Text, q: Text, u: Text)
    requires NoNewline(t) && NoNewline(u) && p + ([NEWLINE] + t) == q + ([NEWLINE] + u)
    ensures p == q && t == u
  {
    NewlineBetween(p, t);
    NewlineBetween(q, u);
    assert |p| == |q|;
  }

  lemma SplitAtFirstNewline(t: Text, r: Text, t': Text, r': Text)
    requires NoNewline(t) && NoNewline(t') && t + ([NEWLINE] + r) == t' + ([NEWLINE] + r')
    ensures t == t' && r == r'
  {
    NewlineBetween(t, r);
    NewlineBetween(t', r');
    assert |t| == |t'|;
  }

  /** For any method and route: two preimages are equal iff the bodies are equivalent and the two heads read alike. */
  lemma PreimageSplits(m: Text, r: Text, a: Json, m': Text, r': Text, b: Json)
    requires WellFormed(a) && WellFormed(b)
    ensures Preimage(m, r, a) == Preimage(m', r', b)
            <==> m + ([10] + r) == m' + ([10] + r') && Equiv(a, b)
  {
    var p, q := m + ([NEWLINE] + r), m' + ([NEWLINE] + r');
    assert Preimage(m, r, a) == p + ([NEWLINE] + Canon(a)) && Preimage(m', r', b) == q + ([NEWLINE] + Canon(b));
    CanonHasNoNewline(a);
    CanonHasNoNewline(b);
    if Preimage(m, r, a) == Preimage(m', r', b) { SplitAtLastNewline(p, Canon(a), q, Canon(b)); }
    CanonicalFormIsExact(a, b);
  }

  /**
   * Two requests have the same fingerprint preimage iff method and route agree and the bodies are equivalent, for
   * methods that are single lines; routes and strings in bodies may hold newlines.
   */
  lemma PreimageIsExact(m: Text, r: Text, a: Json, m': Text, r': Text, b: Json)
    requires NoNewline(m) && NoNewline(m') && WellFormed(a) && WellFormed(b)
    ensures Preimage(m, r, a) == Preimage(m', r', b) <==> m == m' && r == r' && Equiv(a, b)
  {
    PreimageSplits(m, r, a, m', r', b);
    if Preimage(m, r, a) == Preimage(m', r', b) { SplitAtFirstNewline(m, r, m', r'); }
  }

  /** A newline in the method breaks it: it can be read as the one that ends a shorter method. */
  lemma NewlineCollides(m: Text, n: Text, r: Text, a: Json)
    ensures Preimage(m + ([NEWLINE] + n), r, a) == Preimage(m, n + ([NEWLINE] + r), a)
  {
    calc {
      Preimage(m + ([NEWLINE] + n), r, a);
      m + ([NEWLINE] + n) + [NEWLINE] + r + [NEWLINE] + Canon(a);
      m + [NEWLINE] + (n + ([NEWLINE] + r)) + [NEWLINE] + Canon(a);
      Preimage(m, n + ([NEWLINE] + r), a);
    }
  }
}
