/**
 * A reader of JSON text by the grammar of RFC 8259, extended by the word the printer uses for an absent value, and the
 * theorem that it reads every canonical text back to an equivalent value.
 */
module JsonReaders {
  import opened Ordering
  import opened Common
  import opened CanonicalJson

  /** What was read, and the text behind it. */
  datatype Parsed<+T> = Parsed(value: T, rest: Text)

  predicate Is(u: Unit, c: char) {
    u == c as int
  }

  predicate Begins(t: Text, word: string) {
    |word| <= |t| && forall i :: 0 <= i < |word| ==> Is(t[i], word[i])
  }

  // ---- Strings, section 7 ------------------------------------------------------------------------------------

  function HexValue(u: Unit): Option<nat> {
    if '0' as int <= u <= '9' as int then Some(u - '0' as int)
    else if 'a' as int <= u <= 'f' as int then Some(10 + u - 'a' as int)
    else if 'A' as int <= u <= 'F' as int then Some(10 + u - 'A' as int)
    else None
  }

  /** Four hexadecimal digits. */
  function HexUnit(t: Text): Option<Unit> {
    if |t| < 4 then None
    else
      var a, b, c, d := HexValue(t[0]), HexValue(t[1]), HexValue(t[2]), HexValue(t[3]);
      if a.None? || b.None? || c.None? || d.None? then None
      else
        var u := 4096 * a.value + 256 * b.value + 16 * c.value + d.value;
        if u < 0x1_0000 then Some(u) else None
  }

  /** The unit a two-unit escape stands for. */
  function ShortEscape(u: Unit): Option<Unit> {
    if Is(u, '"') || Is(u, '\\') || Is(u, '/') then Some(u)
    else if Is(u, 'b') then Some(8)
    else if Is(u, 't') then Some(9)
    else if Is(u, 'n') then Some(10)
    else if Is(u, 'f') then Some(12)
    else if Is(u, 'r') then Some(13)
    else None
  }

  function Behind(u: Unit, p: Option<Parsed<Text>>): Option<Parsed<Text>> {
    if p.None? then None else Some(Parsed([u] + p.value.value, p.value.rest))
  }

  /** The rest of a string after its opening quote. */
  function ReadString(t: Text): (p: Option<Parsed<Text>>)
    ensures p.Some? ==> |p.value.rest| < |t|
    decreases |t|
  {
    if t == [] || t[0] < 32 then None
    else if Is(t[0], '"') then Some(Parsed([], t[1..]))
    else if !Is(t[0], '\\') then Behind(t[0], ReadString(t[1..]))
    else if |t| < 2 then None
    else if ShortEscape(t[1]).Some? then Behind(ShortEscape(t[1]).value, ReadString(t[2..]))
    else if Is(t[1], 'u') && HexUnit(t[2..]).Some? then Behind(HexUnit(t[2..]).value, ReadString(t[6..]))
    else None
  }

  // ---- Values, sections 3 to 6 -------------------------------------------------------------------------------

  predicate InNumeral(u: Unit) {
    '0' as int <= u <= '9' as int || Is(u, '+') || Is(u, '-') || Is(u, '.') || Is(u, 'e')
  }

  function NumeralLength(t: Text): (n: nat)
    ensures n <= |t|
  {
    if t == [] || !InNumeral(t[0]) then 0 else 1 + NumeralLength(t[1..])
  }

  function ReadValue(t: Text): (p: Option<Parsed<Json>>)
    ensures p.Some? ==> |p.value.rest| < |t|
    decreases |t|, 0
  {
    if t == [] then None
    else if Begins(t, "null") then Some(Parsed(Null, t[4..]))
    else if Begins(t, "true") then Some(Parsed(Bool(true), t[4..]))
    else if Begins(t, "false") then Some(Parsed(Bool(false), t[5..]))
    else if Begins(t, "undefined") then Some(Parsed(Undefined, t[9..]))
    else if Is(t[0], '"') then
      var s := ReadString(t[1..]);
      if s.None? then None else Some(Parsed(Str(s.value.value), s.value.rest))
    else if Begins(t, "[]") then Some(Parsed(Arr(NoItems), t[2..]))
    else if Is(t[0], '[') then
      var s := ReadItems(t[1..]);
      if s.None? then None else Some(Parsed(Arr(s.value.value), s.value.rest))
    else if Begins(t, "{}") then Some(Parsed(Obj(NoFields), t[2..]))
    else if Is(t[0], '{') then
      var s := ReadFields(t[1..]);
      if s.None? then None else Some(Parsed(Obj(s.value.value), s.value.rest))
    else if NumeralLength(t) > 0 then Some(Parsed(Num(t[..NumeralLength(t)]), t[NumeralLength(t)..]))
    else None
  }

  /** One value, then a comma and more, or the closing bracket. */
  function ReadItems(t: Text): (p: Option<Parsed<Items>>)
    ensures p.Some? ==> |p.value.rest| < |t|
    decreases |t|, 1
  {
    var head := ReadValue(t);
    if head.None? || head.value.rest == [] then None
    else if Is(head.value.rest[0], ']') then Some(Parsed(Item(head.value.value, NoItems), head.value.rest[1..]))
    else if !Is(head.value.rest[0], ',') then None
    else
      var tail := ReadItems(head.value.rest[1..]);
      if tail.None? then None else Some(Parsed(Item(head.value.value, tail.value.value), tail.value.rest))
  }

  /** One name and value, then a comma and more, or the closing brace. */
  function ReadFields(t: Text): (p: Option<Parsed<Fields>>)
    ensures p.Some? ==> |p.value.rest| < |t|
    decreases |t|, 1
  {
    var field := ReadField(t);
    if field.None? || field.value.rest == [] then None
    else
      var name, value := field.value.value.0, field.value.value.1;
      if Is(field.value.rest[0], '}') then Some(Parsed(Field(name, value, NoFields), field.value.rest[1..]))
      else if !Is(field.value.rest[0], ',') then None
      else
        var more := ReadFields(field.value.rest[1..]);
        if more.None? then None else Some(Parsed(Field(name, value, more.value.value), more.value.rest))
  }

  function ReadField(t: Text): (p: Option<Parsed<(Text, Json)>>)
    ensures p.Some? ==> |p.value.rest| < |t|
    decreases |t|, 0
  {
    if t == [] || !Is(t[0], '"') then None
    else
      var name := ReadString(t[1..]);
      if name.None? || name.value.rest == [] || !Is(name.value.rest[0], ':') then None
      else
        var value := ReadValue(name.value.rest[1..]);
        if value.None? then None else Some(Parsed((name.value.value, value.value.value), value.value.rest))
  }

  // ---- Strings read back -------------------------------------------------------------------------------------

  lemma HexReadsBack(n: int)
    requires 0 <= n < 16
    ensures HexValue(HexDigit(n)) == Some(n)
  {
  }

  lemma HexUnitReadsBack(u: Unit, t: Text)
    ensures HexUnit(Hex4(u) + t) == Some(u)
  {
    var h := Hex4(u) + t;
    assert h[0] == HexDigit(u / 4096) && h[1] == HexDigit(u / 256 % 16);
    assert h[2] == HexDigit(u / 16 % 16) && h[3] == HexDigit(u % 16);
    HexReadsBack(u / 4096);
    HexReadsBack(u / 256 % 16);
    HexReadsBack(u / 16 % 16);
    HexReadsBack(u % 16);
    Recomposed(u);
  }

  /** A printed unit reads back to the unit, whatever follows. */
  lemma UnitReadsBack(u: Unit, t: Text)
    ensures ReadString(EscapeUnit(u) + t) == Behind(u, ReadString(t))
  {
    var e := EscapeUnit(u) + t;
    if |EscapeUnit(u)| == 6 {
      assert e[2..] == Hex4(u) + t && e[6..] == t;
      HexUnitReadsBack(u, t);
    } else if |EscapeUnit(u)| == 2 {
      assert e[2..] == t;
    } else {
      assert e[1..] == t;
    }
  }

  lemma PairReadsBack(u: Unit, v: Unit, t: Text)
    requires High(u) && Low(v)
    ensures ReadString([u, v] + t) == Behind(u, Behind(v, ReadString(t)))
  {
    assert ([u, v] + t)[1..] == [v] + t && ([v] + t)[1..] == t;
  }

  lemma Reassociated(a: Text, b: Text, c: Text)
    ensures (a + b) + c == a + (b + c)
  {
  }

  lemma Regrouped(a: Text, b: Text, c: Text, d: Text)
    ensures (a + (b + c)) + d == a + (b + (c + d))
  {
  }

  lemma CharacterReadsBack(s: Text, t: Text, rest: Text)
    requires s != [] && ReadString(t) == Some(Parsed(s[Width(s)..], rest))
    ensures ReadString(Printed(s) + t) == Some(Parsed(s, rest))
  {
    var more := s[Width(s)..];
    if Paired(s) {
      PairReadsBack(s[0], s[1], t);
      assert [s[0]] + ([s[1]] + more) == s;
    } else {
      UnitReadsBack(s[0], t);
      assert [s[0]] + more == s;
    }
  }

  /** An escaped string reads back to the string, up to the closing quote. */
  lemma {:induction false} StringReadsBack(s: Text, rest: Text)
    ensures ReadString(Escape(s) + ([QUOTE] + rest)) == Some(Parsed(s, rest))
    decreases |s|
  {
    if s == [] {
      EscapeEmpty(s);
      assert [] + ([QUOTE] + rest) == [QUOTE] + rest && ([QUOTE] + rest)[1..] == rest;
    } else {
      var more := s[Width(s)..];
      StringReadsBack(more, rest);
      CharacterReadsBack(s, Escape(more) + ([QUOTE] + rest), rest);
      Reassociated(Printed(s), Escape(more), [QUOTE] + rest);
    }
  }

  // ---- Values read back --------------------------------------------------------------------------------------

  /** The text reads as the given value, and what follows it is left. */
  ghost predicate ReadsTo(text: Text, rest: Text, v: Json, w: Json) {
    ReadValue(text + rest) == Some(Parsed(w, rest)) && Equiv(v, w)
  }

  /** Whatever may follow, the canonical text reads back to an equivalent value. */
  ghost predicate ReadsBack(v: Json) {
    forall rest: Text :: Ends(rest) ==> exists w :: ReadsTo(Canon(v), rest, v, w)
  }

  ghost predicate FieldsReadBack(fs: Fields) {
    fs.Field? ==> ReadsBack(fs.value) && FieldsReadBack(fs.rest)
  }

  ghost predicate ItemsReadBack(items: Items) {
    items.Item? ==> ReadsBack(items.head) && ItemsReadBack(items.tail)
  }

  lemma BeginsOtherwise(t: Text, word: string)
    requires t != [] && word != "" && t[0] != word[0] as int
    ensures !Begins(t, word)
  {
    assert Begins(t, word) ==> Is(t[0], word[0]);
  }

  /** A text that starts with a bracket, a brace or a quote is no word. */
  lemma NotAWord(t: Text)
    requires t != [] && (t[0] == 91 || t[0] == 123 || t[0] == QUOTE)
    ensures !Begins(t, "null") && !Begins(t, "true") && !Begins(t, "false") && !Begins(t, "undefined")
  {
    BeginsOtherwise(t, "null");
    BeginsOtherwise(t, "true");
    BeginsOtherwise(t, "false");
    BeginsOtherwise(t, "undefined");
  }

  lemma {:induction false} NumeralEnds(t: Text, rest: Text)
    requires (forall i :: 0 <= i < |t| ==> Numeric(t[i])) && Ends(rest)
    ensures NumeralLength(t + rest) == |t|
  {
    if t == [] {
      assert t + rest == rest;
    } else {
      assert (t + rest)[1..] == t[1..] + rest;
      NumeralEnds(t[1..], rest);
    }
  }

  lemma NumeralIsRead(t: Text)
    requires t != [] && ('0' as int <= t[0] <= '9' as int || Is(t[0], '-'))
    ensures ReadValue(t) == Some(Parsed(Num(t[..NumeralLength(t)]), t[NumeralLength(t)..]))
  {
    BeginsOtherwise(t, "null");
    BeginsOtherwise(t, "true");
    BeginsOtherwise(t, "false");
    BeginsOtherwise(t, "undefined");
    BeginsOtherwise(t, "[]");
    BeginsOtherwise(t, "{}");
  }

  lemma NumeralReadsBack(t: Text, rest: Text)
    requires IsNumeral(t) && Ends(rest)
    ensures ReadsTo(Canon(Num(t)), rest, Num(t), Num(t))
  {
    NumeralEnds(t, rest);
    var u := t + rest;
    assert u[0] == t[0] && u[..|t|] == t && u[|t|..] == rest;
    NumeralIsRead(u);
  }

  lemma QuotedReadsBack(s: Text, rest: Text)
    ensures Quote(s) + rest == [QUOTE] + (Escape(s) + ([QUOTE] + rest))
    ensures (Quote(s) + rest)[0] == QUOTE && ReadString((Quote(s) + rest)[1..]) == Some(Parsed(s, rest))
  {
    StringReadsBack(s, rest);
    Reassociated([QUOTE] + Escape(s), [QUOTE], rest);
    Reassociated([QUOTE], Escape(s), [QUOTE] + rest);
    assert ([QUOTE] + (Escape(s) + ([QUOTE] + rest)))[1..] == Escape(s) + ([QUOTE] + rest);
  }

  lemma WordReadsBack(v: Json, rest: Text)
    requires v.Null? || v.Bool? || v.Undefined?
    ensures ReadsTo(Canon(v), rest, v, v)
  {
    var t := Canon(v) + rest;
    assert t[|Canon(v)|..] == rest;
    if !v.Null? { BeginsOtherwise(t, "null"); }
    match v
    case Null => assert Begins(t, "null");
    case Bool(true) => assert Begins(t, "true");
    case Bool(false) =>
      BeginsOtherwise(t, "true");
      assert Begins(t, "false");
    case Undefined =>
      BeginsOtherwise(t, "true");
      BeginsOtherwise(t, "false");
      assert Begins(t, "undefined");
  }

  lemma LastItemRead(t: Text, w: Json, after: Text)
    requires ReadValue(t) == Some(Parsed(w, after)) && after != [] && after[0] == 93
    ensures ReadItems(t) == Some(Parsed(Item(w, NoItems), after[1..]))
  {
  }

  lemma MoreItemsRead(t: Text, w: Json, after: Text, read: Items, rest: Text)
    requires ReadValue(t) == Some(Parsed(w, after)) && after != [] && after[0] == COMMA
    requires ReadItems(after[1..]) == Some(Parsed(read, rest))
    ensures ReadItems(t) == Some(Parsed(Item(w, read), rest))
  {
  }

  /** What stands behind the first value of a printed list. */
  function BehindHead(tail: Items, rest: Text): Text {
    if tail.NoItems? then [93] + rest else [COMMA] + (CanonItems(tail) + ([93] + rest))
  }

  lemma HeadOfItems(items: Items, rest: Text)
    requires items.Item?
    ensures CanonItems(items) + ([93] + rest) == Canon(items.head) + BehindHead(items.tail, rest)
    ensures var after := BehindHead(items.tail, rest);
            Ends(after) && after != []
            && after[1..] == if items.tail.NoItems? then rest else CanonItems(items.tail) + ([93] + rest)
  {
    if items.tail.Item? { Regrouped(Canon(items.head), [COMMA], CanonItems(items.tail), [93] + rest); }
  }

  lemma {:induction false} ItemsTextReadsBack(items: Items, rest: Text) returns (read: Items)
    requires items.Item? && ItemsReadBack(items)
    ensures ReadItems(CanonItems(items) + ([93] + rest)) == Some(Parsed(read, rest)) && EquivItems(items, read)
    decreases items
  {
    var text, after := CanonItems(items) + ([93] + rest), BehindHead(items.tail, rest);
    HeadOfItems(items, rest);
    var w :| ReadsTo(Canon(items.head), after, items.head, w);
    if items.tail.NoItems? {
      LastItemRead(text, w, after);
      read := Item(w, NoItems);
    } else {
      var more := ItemsTextReadsBack(items.tail, rest);
      MoreItemsRead(text, w, after, more, rest);
      read := Item(w, more);
    }
  }

  /** A printed property reads back to its name and an equivalent value. */
  lemma FieldIsRead(t: Text, name: Text, behind: Text, w: Json, after: Text)
    requires t != [] && t[0] == QUOTE && ReadString(t[1..]) == Some(Parsed(name, behind))
    requires behind != [] && behind[0] == COLON && ReadValue(behind[1..]) == Some(Parsed(w, after))
    ensures ReadField(t) == Some(Parsed((name, w), after))
  {
  }

  lemma FieldReadsBack(name: Text, v: Json, after: Text) returns (w: Json)
    requires ReadsBack(v) && Ends(after)
    ensures ReadField(Entry((name, Canon(v))) + after) == Some(Parsed((name, w), after)) && Equiv(v, w)
  {
    var behind: Text := [COLON] + (Canon(v) + after);
    Reassociated(Quote(name), [COLON] + Canon(v), after);
    Reassociated([COLON], Canon(v), after);
    QuotedReadsBack(name, behind);
    assert behind[1..] == Canon(v) + after;
    w :| ReadsTo(Canon(v), after, v, w);
    FieldIsRead(Quote(name) + behind, name, behind, w, after);
  }

  /** The fields read from the text of the entries: their names, in that order, each with an equivalent value. */
  ghost predicate ReadFrom(read: Fields, fs: Fields, es: seq<(Text, Text)>)
    decreases |es|
  {
    if es == [] then read.NoFields?
    else
      && read.Field? && read.name == es[0].0 && Lookup(fs, read.name).Some?
      && Equiv(Lookup(fs, read.name).value, read.value) && ReadFrom(read.rest, fs, es[1..])
  }

  lemma {:induction false} LookupReadsBack(fs: Fields, name: Text)
    requires FieldsReadBack(fs) && Lookup(fs, name).Some?
    ensures ReadsBack(Lookup(fs, name).value) && !Lookup(fs, name).value.Undefined?
    decreases fs
  {
    if fs.name != name { LookupReadsBack(fs.rest, name); }
  }

  lemma LastFieldRead(t: Text, name: Text, w: Json, after: Text)
    requires ReadField(t) == Some(Parsed((name, w), after)) && after != [] && after[0] == 125
    ensures ReadFields(t) == Some(Parsed(Field(name, w, NoFields), after[1..]))
  {
  }

  lemma MoreFieldsRead(t: Text, name: Text, w: Json, after: Text, read: Fields, rest: Text)
    requires ReadField(t) == Some(Parsed((name, w), after)) && after != [] && after[0] == COMMA
    requires ReadFields(after[1..]) == Some(Parsed(read, rest))
    ensures ReadFields(t) == Some(Parsed(Field(name, w, read), rest))
  {
  }

  /** What stands behind the first of the printed entries. */
  function BehindEntry(es: seq<(Text, Text)>, rest: Text): Text {
    if |es| <= 1 then [125] + rest else [COMMA] + (Join(es[1..]) + ([125] + rest))
  }

  lemma HeadOfEntries(es: seq<(Text, Text)>, rest: Text)
    requires es != []
    ensures Join(es) + ([125] + rest) == Entry(es[0]) + BehindEntry(es, rest)
    ensures var after := BehindEntry(es, rest);
            Ends(after) && after != [] && after[1..] == if |es| == 1 then rest else Join(es[1..]) + ([125] + rest)
  {
    if |es| > 1 { Regrouped(Entry(es[0]), [COMMA], Join(es[1..]), [125] + rest); }
  }

  lemma EntryReadsBack(fs: Fields, e: (Text, Text), after: Text) returns (w: Json)
    requires WellFormedFields(fs) && FieldsReadBack(fs) && e in Entries(fs) && Ends(after)
    ensures ReadField(Entry(e) + after) == Some(Parsed((e.0, w), after))
    ensures Lookup(fs, e.0).Some? && Equiv(Lookup(fs, e.0).value, w)
  {
    EntryIsLookup(fs, e);
    LookupReadsBack(fs, e.0);
    var v := Lookup(fs, e.0).value;
    assert e == (e.0, Canon(v));
    w := FieldReadsBack(e.0, v, after);
  }

  lemma {:induction false} FieldsTextReadsBack(fs: Fields, es: seq<(Text, Text)>, rest: Text) returns (read: Fields)
    requires WellFormedFields(fs) && FieldsReadBack(fs) && es != [] && forall e :: e in es ==> e in Entries(fs)
    ensures ReadFields(Join(es) + ([125] + rest)) == Some(Parsed(read, rest)) && ReadFrom(read, fs, es)
    decreases |es|
  {
    var text, after := Join(es) + ([125] + rest), BehindEntry(es, rest);
    HeadOfEntries(es, rest);
    var w := EntryReadsBack(fs, es[0], after);
    if |es| == 1 {
      LastFieldRead(text, es[0].0, w, after);
      read := Field(es[0].0, w, NoFields);
    } else {
      var more := FieldsTextReadsBack(fs, es[1..], rest);
      MoreFieldsRead(text, es[0].0, w, after, more, rest);
      read := Field(es[0].0, w, more);
    }
  }

  /** Such fields are the defined properties of the object, up to order. */
  lemma {:induction false} ReadNames(read: Fields, fs: Fields, es: seq<(Text, Text)>)
    requires ReadFrom(read, fs, es) && forall name :: Lookup(fs, name).Some? ==> !Lookup(fs, name).value.Undefined?
    ensures forall name :: name in DefinedNames(read) <==> exists i :: 0 <= i < |es| && es[i].0 == name
    ensures forall name :: Lookup(read, name).Some? ==>
              Lookup(fs, name).Some? && Equiv(Lookup(fs, name).value, Lookup(read, name).value)
    ensures forall name :: name in DefinedNames(read) ==> Lookup(read, name).Some?
    decreases |es|
  {
    if es != [] {
      ReadNames(read.rest, fs, es[1..]);
      assert es == [es[0]] + es[1..];
    }
  }

  lemma {:induction false} CoversByLookup(gs: Fields, fs: Fields)
    requires WellFormedFields(fs)
    requires forall name :: Lookup(fs, name).Some? ==>
               Lookup(gs, name).Some? && Equiv(Lookup(fs, name).value, Lookup(gs, name).value)
    ensures Covers(gs, fs)
    decreases fs
  {
    if fs.Field? {
      assert !fs.value.Undefined? ==> Lookup(fs, fs.name) == Some(fs.value);
      forall name | Lookup(fs.rest, name).Some? ensures Lookup(fs, name) == Lookup(fs.rest, name) {
        LookupIsEntry(fs.rest, name);
      }
      CoversByLookup(gs, fs.rest);
    }
  }

  lemma {:induction false} LookupIsDefined(fs: Fields, name: Text)
    requires WellFormedFields(fs)
    ensures Lookup(fs, name).Some? ==> !Lookup(fs, name).value.Undefined?
    ensures name in DefinedNames(fs) <==> Lookup(fs, name).Some?
    decreases fs
  {
    if fs.Field? {
      LookupIsDefined(fs.rest, name);
      NamesOfEntries(fs.rest);
    }
  }

  /** What is read from the sorted entries of an object is equivalent to it. */
  lemma ObjectReadBack(fs: Fields, es: seq<(Text, Text)>, read: Fields)
    requires WellFormedFields(fs) && ReadFrom(read, fs, es) && SameElements(es, Entries(fs))
    ensures Equiv(Obj(fs), Obj(read))
  {
    forall name ensures Lookup(fs, name).Some? ==> !Lookup(fs, name).value.Undefined? { LookupIsDefined(fs, name); }
    ReadNames(read, fs, es);
    NamesOfEntries(fs);
    forall name ensures name in DefinedNames(fs) <==> name in DefinedNames(read) {
      if name in DefinedNames(fs) {
        var t :| (name, t) in Entries(fs);
        assert (name, t) in es;
      }
      if i :| 0 <= i < |es| && es[i].0 == name {
        assert es[i] in Entries(fs) && es[i] == (name, es[i].1);
      }
    }
    forall name | Lookup(fs, name).Some?
      ensures Lookup(read, name).Some? && Equiv(Lookup(fs, name).value, Lookup(read, name).value)
    {
      LookupIsDefined(fs, name);
    }
    CoversByLookup(read, fs);
  }

  /** A printed list of values does not look closed. */
  lemma ItemsTextStarts(items: Items, rest: Text)
    requires items.Item? && WellFormedItems(items)
    ensures CanonItems(items) != [] && CanonItems(items)[0] != 93
  {
    CanonStarts(items.head);
    HeadOfItems(items, rest);
  }

  lemma CanonStarts(v: Json)
    requires WellFormed(v)
    ensures Canon(v) != [] && Canon(v)[0] != 93
  {
  }

  lemma EmptyReadsBack(rest: Text)
    ensures ReadsTo(Canon(Arr(NoItems)), rest, Arr(NoItems), Arr(NoItems))
    ensures ReadValue([123] + [125] + rest) == Some(Parsed(Obj(NoFields), rest))
  {
    var t, u: Text := [91] + [93] + rest, [123] + [125] + rest;
    assert Canon(Arr(NoItems)) + rest == t;
    NotAWord(t);
    NotAWord(u);
    assert t[2..] == rest && u[2..] == rest && Begins(t, "[]") && Begins(u, "{}");
    BeginsOtherwise(u, "[]");
  }

  lemma ArrayReadsBack(items: Items, rest: Text)
    requires WellFormedItems(items) && ItemsReadBack(items) && Ends(rest)
    ensures exists w :: ReadsTo(Canon(Arr(items)), rest, Arr(items), w)
  {
    if items.NoItems? {
      EmptyReadsBack(rest);
    } else {
      var read := ItemsTextReadsBack(items, rest);
      ItemsTextStarts(items, rest);
      BracketedReadsBack(CanonItems(items), rest, read);
      assert ReadsTo(Canon(Arr(items)), rest, Arr(items), Arr(read));
    }
  }

  lemma BracketedReadsBack(inner: Text, rest: Text, read: Items)
    requires inner != [] && inner[0] != 93 && ReadItems(inner + ([93] + rest)) == Some(Parsed(read, rest))
    ensures ReadValue([91] + inner + [93] + rest) == Some(Parsed(Arr(read), rest))
  {
    var text: Text := [91] + inner + [93] + rest;
    assert text[1..] == inner + ([93] + rest);
    ArrayIsRead(text);
  }

  lemma BracedReadsBack(inner: Text, rest: Text, read: Fields)
    requires inner != [] && inner[0] != 125 && ReadFields(inner + ([125] + rest)) == Some(Parsed(read, rest))
    ensures ReadValue([123] + inner + [125] + rest) == Some(Parsed(Obj(read), rest))
  {
    var text: Text := [123] + inner + [125] + rest;
    assert text[1..] == inner + ([125] + rest);
    ObjectIsRead(text);
  }

  lemma ArrayIsRead(t: Text)
    requires |t| >= 2 && t[0] == 91 && t[1] != 93 && ReadItems(t[1..]).Some?
    ensures ReadValue(t) == Some(Parsed(Arr(ReadItems(t[1..]).value.value), ReadItems(t[1..]).value.rest))
  {
    NotAWord(t);
    assert !Begins(t, "[]") by { assert Begins(t, "[]") ==> Is(t[1], "[]"[1]); }
  }

  lemma ObjectIsRead(t: Text)
    requires |t| >= 2 && t[0] == 123 && t[1] != 125 && ReadFields(t[1..]).Some?
    ensures ReadValue(t) == Some(Parsed(Obj(ReadFields(t[1..]).value.value), ReadFields(t[1..]).value.rest))
  {
    NotAWord(t);
    BeginsOtherwise(t, "[]");
    assert !Begins(t, "{}") by { assert Begins(t, "{}") ==> Is(t[1], "{}"[1]); }
  }

  lemma JoinStarts(es: seq<(Text, Text)>)
    requires es != []
    ensures Join(es) != [] && Join(es)[0] == QUOTE
  {
  }

  lemma EntriesReadBack(fs: Fields, es: seq<(Text, Text)>, rest: Text) returns (read: Fields)
    requires WellFormedFields(fs) && FieldsReadBack(fs) && forall e :: e in es ==> e in Entries(fs)
    ensures ReadValue([123] + Join(es) + [125] + rest) == Some(Parsed(Obj(read), rest)) && ReadFrom(read, fs, es)
  {
    if es == [] {
      read := NoFields;
      EmptyReadsBack(rest);
      assert [123] + Join(es) + [125] + rest == [123] + [125] + rest;
    } else {
      read := FieldsTextReadsBack(fs, es, rest);
      JoinStarts(es);
      BracedReadsBack(Join(es), rest, read);
    }
  }

  lemma ObjectReadsBack(fs: Fields, rest: Text)
    requires WellFormedFields(fs) && FieldsReadBack(fs) && Ends(rest)
    ensures exists w :: ReadsTo(Canon(Obj(fs)), rest, Obj(fs), w)
  {
    var es := Sort(KeyBefore, Entries(fs));
    SortMultiset(KeyBefore, Entries(fs));
    var read := EntriesReadBack(fs, es, rest);
    ObjectReadBack(fs, es, read);
    assert ReadsTo(Canon(Obj(fs)), rest, Obj(fs), Obj(read));
  }

  lemma StringValueReadsBack(s: Text, rest: Text)
    ensures ReadsTo(Canon(Str(s)), rest, Str(s), Str(s))
  {
    QuotedReadsBack(s, rest);
    NotAWord(Quote(s) + rest);
  }

  lemma {:induction false} ValueReadsBack(v: Json)
    requires WellFormed(v)
    ensures ReadsBack(v)
    decreases v
  {
    forall rest: Text | Ends(rest) ensures exists w :: ReadsTo(Canon(v), rest, v, w) {
      match v
      case Num(numeral) => NumeralReadsBack(numeral, rest);
      case Str(text) => StringValueReadsBack(text, rest);
      case Arr(items) =>
        ItemsAllReadBack(items);
        ArrayReadsBack(items, rest);
      case Obj(fields) =>
        FieldsAllReadBack(fields);
        ObjectReadsBack(fields, rest);
      case _ => WordReadsBack(v, rest);
    }
  }

  lemma {:induction false} ItemsAllReadBack(items: Items)
    requires WellFormedItems(items)
    ensures ItemsReadBack(items)
    decreases items
  {
    if items.Item? {
      ValueReadsBack(items.head);
      ItemsAllReadBack(items.tail);
    }
  }

  lemma {:induction false} FieldsAllReadBack(fs: Fields)
    requires WellFormedFields(fs)
    ensures FieldsReadBack(fs)
    decreases fs
  {
    if fs.Field? {
      ValueReadsBack(fs.value);
      FieldsAllReadBack(fs.rest);
    }
  }

  /**
   * The round trip: the canonical text of any body, read as JSON, gives a body that is the same up to property order
   * and undefined properties, and leaves nothing over.
   */
  lemma CanonReadsBack(v: Json) returns (w: Json)
    requires WellFormed(v)
    ensures ReadValue(Canon(v)) == Some(Parsed(w, [])) && Equiv(v, w)
  {
    ValueReadsBack(v);
    assert Ends([]) && Canon(v) + [] == Canon(v);
    w :| ReadsTo(Canon(v), [], v, w);
  }
}
