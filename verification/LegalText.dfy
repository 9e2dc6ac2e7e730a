/**
 * The text normalisation in front of the legal-document digest:
 * apps/bff/src/lib/legal-documents.ts.
 *
 * Each function is one link of the source's method chain. The theorems say what
 * the whole chain does: which texts it leaves alone, that it reaches one of them
 * in one pass, which lines it keeps, and which edits it does and does not hide.
 */
module LegalText {

  predicate IsBlank(c: char) {
    c == ' ' || c == '\t'
  }

  /** Every carriage return, with the line feed right behind it if there is one, becomes one line feed. */
  function LfOnly(s: string): string {
    if s == [] then []
    else if s[0] != '\r' then [s[0]] + LfOnly(s[1..])
    else if |s| > 1 && s[1] == '\n' then ['\n'] + LfOnly(s[2..])
    else ['\n'] + LfOnly(s[1..])
  }

  /** The lines between line feeds; the empty text is one empty line. */
  function Split(s: string): (lines: seq<string>)
    ensures |lines| > 0
  {
    if s == [] then [[]]
    else
      var rest := Split(s[1..]);
      if s[0] == '\n' then [[]] + rest else [[s[0]] + rest[0]] + rest[1..]
  }

  /** A line without the spaces and tabs at its end. */
  function TrimEnd(line: string): string {
    if line != [] && IsBlank(line[|line| - 1]) then TrimEnd(line[..|line| - 1]) else line
  }

  function TrimEach(lines: seq<string>): (r: seq<string>)
    ensures |r| == |lines|
    ensures forall i :: 0 <= i < |r| ==> r[i] == TrimEnd(lines[i])
  {
    if lines == [] then [] else [TrimEnd(lines[0])] + TrimEach(lines[1..])
  }

  /** The lines with a line feed between any two. */
  function Join(lines: seq<string>): string {
    if lines == [] then []
    else if |lines| == 1 then lines[0]
    else lines[0] + ['\n'] + Join(lines[1..])
  }

  /** A run of line feeds at the end shrinks to its first. */
  function OneFinalNewline(s: string): string {
    if |s| >= 2 && s[|s| - 1] == '\n' && s[|s| - 2] == '\n' then OneFinalNewline(s[..|s| - 1]) else s
  }

  function TrimLines(s: string): string {
    Join(TrimEach(Split(s)))
  }

  function Normalize(raw: string): string {
    OneFinalNewline(TrimLines(LfOnly(raw)))
  }

  // ---- The form the digest is taken of, described without the steps that reach it -----------------------------

  predicate NoCr(s: string) {
    '\r' !in s
  }

  predicate NoBlankAtLineEnd(s: string) {
    forall i :: 0 <= i < |s| && (s[i] == ' ' || s[i] == '\t') ==> i + 1 < |s| && s[i + 1] != '\n'
  }

  predicate AtMostOneFinalNewline(s: string) {
    !(|s| >= 2 && s[|s| - 1] == '\n' && s[|s| - 2] == '\n')
  }

  predicate Normal(s: string) {
    NoCr(s) && NoBlankAtLineEnd(s) && AtMostOneFinalNewline(s)
  }

  // ---- Line endings -------------------------------------------------------------------------------------------

  lemma {:induction false} LfOnlyHasNoCr(s: string)
    ensures NoCr(LfOnly(s))
  {
    if s == [] {
    } else if s[0] != '\r' {
      LfOnlyHasNoCr(s[1..]);
    } else if |s| > 1 && s[1] == '\n' {
      LfOnlyHasNoCr(s[2..]);
    } else {
      LfOnlyHasNoCr(s[1..]);
    }
  }

  lemma {:induction false} LfOnlyKeepsLfText(s: string)
    requires NoCr(s)
    ensures LfOnly(s) == s
  {
    if s != [] {
      LfOnlyKeepsLfText(s[1..]);
      assert s == [s[0]] + s[1..];
    }
  }

  /** What a checkout that rewrites line endings does to a text. */
  function WithCrlf(s: string): string {
    if s == [] then []
    else if s[0] == '\n' then ['\r', '\n'] + WithCrlf(s[1..])
    else [s[0]] + WithCrlf(s[1..])
  }

  lemma {:induction false} LfOnlyUndoesCrlf(s: string)
    requires NoCr(s)
    ensures LfOnly(WithCrlf(s)) == s
  {
    if s == [] {
    } else {
      LfOnlyUndoesCrlf(s[1..]);
      var w := WithCrlf(s[1..]);
      if s[0] == '\n' {
        assert WithCrlf(s)[2..] == w;
      } else {
        assert WithCrlf(s)[1..] == w;
      }
      assert s == [s[0]] + s[1..];
    }
  }

  /** Checking the document out with CRLF line endings is not a revision. */
  lemma CheckoutIsInvisible(s: string)
    requires NoCr(s)
    ensures Normalize(WithCrlf(s)) == Normalize(s)
  {
    LfOnlyUndoesCrlf(s);
    LfOnlyKeepsLfText(s);
  }

  // ---- Splitting and joining ----------------------------------------------------------------------------------

  predicate NoLf(lines: seq<string>) {
    forall i :: 0 <= i < |lines| ==> '\n' !in lines[i]
  }

  lemma {:induction false} SplitHasNoLf(s: string)
    ensures NoLf(Split(s))
  {
    if s != [] {
      SplitHasNoLf(s[1..]);
    }
  }

  lemma {:induction false} SplitOneLine(line: string)
    requires '\n' !in line
    ensures Split(line) == [line]
  {
    if line != [] {
      SplitOneLine(line[1..]);
      assert line == [line[0]] + line[1..];
    }
  }

  lemma {:induction false} SplitFirstLine(line: string, rest: string)
    requires '\n' !in line
    ensures Split(line + ['\n'] + rest) == [line] + Split(rest)
  {
    var s := line + ['\n'] + rest;
    if line == [] {
      assert s[1..] == rest;
    } else {
      SplitFirstLine(line[1..], rest);
      assert s[1..] == line[1..] + ['\n'] + rest;
      assert line == [line[0]] + line[1..];
    }
  }

  lemma {:induction false} SplitUndoesJoin(lines: seq<string>)
    requires lines != [] && NoLf(lines)
    ensures Split(Join(lines)) == lines
  {
    if |lines| == 1 {
      SplitOneLine(lines[0]);
    } else {
      SplitFirstLine(lines[0], Join(lines[1..]));
      SplitUndoesJoin(lines[1..]);
    }
  }

  // ---- Blanks at line ends ------------------------------------------------------------------------------------

  lemma {:induction false} TrimEndFront(c: char, line: string)
    ensures TrimEnd([c] + line) == if IsBlank(c) && TrimEnd(line) == [] then [] else [c] + TrimEnd(line)
  {
    var s := [c] + line;
    if line == [] {
      assert s[..0] == [];
    } else if IsBlank(line[|line| - 1]) {
      assert s[..|s| - 1] == [c] + line[..|line| - 1];
      TrimEndFront(c, line[..|line| - 1]);
    }
  }

  lemma TrimEndKeepsOut(line: string)
    ensures '\n' !in line ==> '\n' !in TrimEnd(line)
  {
  }

  /**
   * TrimLines read from the left: a blank goes exactly when nothing but blanks
   * stands between it and the end of its line.
   */
  lemma TrimLinesFront(c: char, s: string)
    requires c != '\n'
    ensures TrimLines([c] + s) ==
            var t := TrimLines(s);
            if IsBlank(c) && (t == [] || t[0] == '\n') then t else [c] + t
  {
    var lines := Split(s);
    assert ([c] + s)[1..] == s;
    assert Split([c] + s) == [[c] + lines[0]] + lines[1..];
    SplitHasNoLf(s);
    TrimEndFront(c, lines[0]);
    TrimEndKeepsOut(lines[0]);
    var trimmed := TrimEach(lines);
    assert TrimEach(Split([c] + s)) == [TrimEnd([c] + lines[0])] + trimmed[1..];
    if |lines| > 1 {
      assert TrimLines(s) == trimmed[0] + ['\n'] + Join(trimmed[1..]);
    }
  }

  lemma TrimLinesNewline(s: string)
    ensures TrimLines(['\n'] + s) == ['\n'] + TrimLines(s)
  {
    assert (['\n'] + s)[1..] == s;
    assert Split(['\n'] + s) == [[]] + Split(s);
    assert TrimEach([[]] + Split(s)) == [[]] + TrimEach(Split(s));
  }

  lemma {:induction false} TrimLinesShape(s: string)
    ensures NoBlankAtLineEnd(TrimLines(s))
    ensures NoCr(s) ==> NoCr(TrimLines(s))
  {
    if s != [] {
      TrimLinesShape(s[1..]);
      assert s == [s[0]] + s[1..];
      if s[0] == '\n' {
        TrimLinesNewline(s[1..]);
      } else {
        TrimLinesFront(s[0], s[1..]);
      }
    }
  }

  lemma {:induction false} TrimLinesKeepsTrimmed(s: string)
    requires NoBlankAtLineEnd(s)
    ensures TrimLines(s) == s
  {
    if s != [] {
      var rest := s[1..];
      assert s == [s[0]] + rest;
      assert forall i :: 0 <= i < |rest| ==> rest[i] == s[i + 1];
      TrimLinesKeepsTrimmed(rest);
      if s[0] == '\n' {
        TrimLinesNewline(rest);
      } else {
        TrimLinesFront(s[0], rest);
      }
    }
  }

  // ---- Final newlines -----------------------------------------------------------------------------------------

  lemma {:induction false} OneFinalNewlineShape(s: string)
    requires NoCr(s) && NoBlankAtLineEnd(s)
    ensures Normal(OneFinalNewline(s))
  {
    if !AtMostOneFinalNewline(s) {
      OneFinalNewlineShape(s[..|s| - 1]);
    }
  }

  // ---- The image of Normalize ---------------------------------------------------------------------------------

  lemma NormalizeIsNormal(raw: string)
    ensures Normal(Normalize(raw))
  {
    LfOnlyHasNoCr(raw);
    TrimLinesShape(LfOnly(raw));
    OneFinalNewlineShape(TrimLines(LfOnly(raw)));
  }

  /**
   * Exactly the texts with no CR, no blank at a line end and at most one final
   * newline are left alone, and every text reaches one of them.
   */
  lemma ImageIsExact(s: string)
    ensures Normal(s) <==> Normalize(s) == s
    ensures Normal(s) <==> exists raw :: Normalize(raw) == s
  {
    if Normal(s) {
      LfOnlyKeepsLfText(s);
      TrimLinesKeepsTrimmed(s);
      assert Normalize(s) == s;
    }
    forall raw | Normalize(raw) == s
      ensures Normal(s)
    {
      NormalizeIsNormal(raw);
    }
  }

  lemma NormalizeIsIdempotent(raw: string)
    ensures Normalize(Normalize(raw)) == Normalize(raw)
  {
    NormalizeIsNormal(raw);
    ImageIsExact(Normalize(raw));
  }

  // ---- What survives ------------------------------------------------------------------------------------------

  /** A document's lines, each without its trailing blanks. */
  function Lines(raw: string): (r: seq<string>)
    ensures |r| > 0
  {
    TrimEach(Split(LfOnly(raw)))
  }

  /** Drops empty lines from the end while two of them stand there after another. */
  function CapEmpty(lines: seq<string>): (r: seq<string>)
    ensures lines != [] ==> r != []
  {
    if |lines| >= 3 && lines[|lines| - 1] == [] && lines[|lines| - 2] == []
    then CapEmpty(lines[..|lines| - 1])
    else lines
  }

  lemma {:induction false} JoinLast(lines: seq<string>)
    requires |lines| >= 2
    ensures Join(lines) == Join(lines[..|lines| - 1]) + ['\n'] + lines[|lines| - 1]
  {
    if |lines| == 2 {
      assert lines[1..] == [lines[1]];
      assert lines[..1] == [lines[0]];
    } else {
      JoinLast(lines[1..]);
      var front := lines[..|lines| - 1];
      assert lines[1..][..|lines| - 2] == front[1..];
      calc {
        Join(lines);
        lines[0] + ['\n'] + Join(lines[1..]);
        lines[0] + ['\n'] + (Join(front[1..]) + ['\n'] + lines[|lines| - 1]);
        (lines[0] + ['\n'] + Join(front[1..])) + ['\n'] + lines[|lines| - 1];
      }
    }
  }

  lemma {:induction false} CapMatchesNewlines(lines: seq<string>)
    requires lines != [] && NoLf(lines)
    ensures OneFinalNewline(Join(lines)) == Join(CapEmpty(lines))
    decreases |lines|
  {
    var n := |lines|;
    if n == 1 {
      assert Join(lines) == lines[0];
    } else {
      var front := lines[..n - 1];
      JoinLast(lines);
      var s := Join(lines);
      if lines[n - 1] != [] {
        assert s[|s| - 1] == lines[n - 1][|lines[n - 1]| - 1];
        assert s[|s| - 1] != '\n';
      } else {
        assert s == Join(front) + ['\n'];
        assert s[..|s| - 1] == Join(front);
        if n == 2 {
          assert front == [lines[0]];
        } else {
          JoinLast(front);
          if lines[n - 2] == [] {
            CapMatchesNewlines(front);
          } else {
            assert Join(front)[|Join(front)| - 1] == lines[n - 2][|lines[n - 2]| - 1];
          }
        }
      }
    }
  }

  /**
   * Nothing but trailing blanks and surplus empty lines at the end is lost: the
   * lines of the normal form are the document's lines in order, so leading
   * blanks, blank lines between paragraphs and the wrapping all count.
   */
  lemma KeptLines(raw: string)
    ensures Split(Normalize(raw)) == CapEmpty(Lines(raw))
  {
    var lines := Lines(raw);
    LinesHaveNoLf(raw);
    CapMatchesNewlines(lines);
    CapKeepsNoLf(lines);
    SplitUndoesJoin(CapEmpty(lines));
  }

  lemma LinesHaveNoLf(raw: string)
    ensures NoLf(Lines(raw))
  {
    var lines := Split(LfOnly(raw));
    SplitHasNoLf(LfOnly(raw));
    forall i | 0 <= i < |lines|
      ensures '\n' !in Lines(raw)[i]
    {
      TrimEndKeepsOut(lines[i]);
    }
  }

  lemma {:induction false} CapKeepsNoLf(lines: seq<string>)
    requires NoLf(lines)
    ensures NoLf(CapEmpty(lines))
    decreases |lines|
  {
    if |lines| >= 3 && lines[|lines| - 1] == [] && lines[|lines| - 2] == [] {
      CapKeepsNoLf(lines[..|lines| - 1]);
    }
  }

  /** Two documents share a digest input exactly when they read the same line by line. */
  lemma SameFormIff(a: string, b: string)
    ensures Normalize(a) == Normalize(b) <==> CapEmpty(Lines(a)) == CapEmpty(Lines(b))
  {
    KeptLines(a);
    KeptLines(b);
    LinesHaveNoLf(a);
    LinesHaveNoLf(b);
    CapMatchesNewlines(Lines(a));
    CapMatchesNewlines(Lines(b));
  }

  // ---- The final newline --------------------------------------------------------------------------------------

  /** The last character that is not a space or a tab is a line ending. */
  predicate EndsItsLastLine(s: string) {
    var t := TrimEnd(s);
    t != [] && (t[|t| - 1] == '\n' || t[|t| - 1] == '\r')
  }

  /** How one more character at the end changes the line-feed form. */
  lemma {:induction false} LfOnlyAppend(s: string, c: char)
    ensures LfOnly(s + [c]) ==
            if c == '\n' && s != [] && s[|s| - 1] == '\r' then LfOnly(s)
            else LfOnly(s) + [if c == '\r' then '\n' else c]
  {
    var t := s + [c];
    if s == [] {
      assert t[1..] == [];
    } else if s[0] == '\r' && |s| > 1 && s[1] == '\n' {
      assert t[2..] == s[2..] + [c];
      LfOnlyAppend(s[2..], c);
    } else if s == ['\r'] && c == '\n' {
      assert t[2..] == [];
    } else {
      assert t[1..] == s[1..] + [c];
      LfOnlyAppend(s[1..], c);
    }
  }

  lemma {:induction false} SplitAppend(s: string, c: char)
    ensures var lines := Split(s);
            Split(s + [c]) == if c == '\n' then lines + [[]] else lines[|lines| - 1 := lines[|lines| - 1] + [c]]
  {
    var t := s + [c];
    if s == [] {
      assert t == [c] && t[1..] == [];
      assert Split(t[1..]) == [[]];
      assert Split(s) == [[]];
      if c != '\n' {
        assert [c] + Split(t[1..])[0] == [] + [c];
      }
    } else {
      assert t[1..] == s[1..] + [c];
      SplitAppend(s[1..], c);
      var rest, more := Split(s[1..]), Split(s[1..] + [c]);
      if s[0] == '\n' {
        assert Split(t) == [[]] + more;
      } else if |rest| == 1 && c != '\n' {
        assert [s[0]] + (rest[0] + [c]) == ([s[0]] + rest[0]) + [c];
      } else {
        assert more[0] == rest[0];
      }
    }
  }

  lemma TrimLast(lines: seq<string>, c: char)
    requires lines != []
    ensures IsBlank(c) ==> TrimEach(lines[|lines| - 1 := lines[|lines| - 1] + [c]]) == TrimEach(lines)
  {
    var last := lines[|lines| - 1];
    assert (last + [c])[..|last + [c]| - 1] == last;
  }

  predicate LastLineIsEmpty(lines: seq<string>) {
    |lines| >= 2 && lines[|lines| - 1] == []
  }

  lemma LinesAppendBlank(s: string, c: char)
    requires IsBlank(c)
    ensures Lines(s + [c]) == Lines(s)
  {
    LfOnlyAppend(s, c);
    SplitAppend(LfOnly(s), c);
    TrimLast(Split(LfOnly(s)), c);
  }

  lemma LinesAppendEnd(s: string, c: char)
    requires c == '\n' || c == '\r'
    requires c == '\n' ==> s == [] || s[|s| - 1] != '\r'
    ensures Lines(s + [c]) == Lines(s) + [[]]
  {
    LfOnlyAppend(s, c);
    SplitAppend(LfOnly(s), '\n');
    var lines := Split(LfOnly(s));
    assert Lines(s + [c]) == TrimEach(lines + [[]]);
    assert TrimEach(lines + [[]])[|lines|] == [];
    assert TrimEach(lines + [[]])[..|lines|] == TrimEach(lines);
  }

  lemma LinesAppendOther(s: string, c: char)
    requires !IsBlank(c) && c != '\n' && c != '\r'
    ensures !LastLineIsEmpty(Lines(s + [c]))
  {
    LfOnlyAppend(s, c);
    SplitAppend(LfOnly(s), c);
    var lines := Split(LfOnly(s));
    var last := lines[|lines| - 1] + [c];
    assert Split(LfOnly(s + [c]))[|lines| - 1] == last;
    assert TrimEnd(last) == last;
  }

  /** The document ends its last line exactly when that leaves an empty one behind. */
  lemma {:induction false} EndsItsLastLineIff(s: string)
    ensures EndsItsLastLine(s) <==> LastLineIsEmpty(Lines(s))
    decreases |s|
  {
    if s != [] {
      var n := |s| - 1;
      var front, c := s[..n], s[n];
      assert s == front + [c];
      if IsBlank(c) {
        EndsItsLastLineIff(front);
        LinesAppendBlank(front, c);
      } else if c != '\n' && c != '\r' {
        LinesAppendOther(front, c);
      } else {
        assert EndsItsLastLine(s) by { assert TrimEnd(s) == s; }
        if c == '\n' && n > 0 && front[n - 1] == '\r' {
          LinesOfCrLf(front);
        } else {
          LinesAppendEnd(front, c);
        }
      }
    }
  }

  lemma LinesOfCrLf(s: string)
    requires s != [] && s[|s| - 1] == '\r'
    ensures LastLineIsEmpty(Lines(s + ['\n']))
  {
    var front := s[..|s| - 1];
    assert s == front + ['\r'];
    LfOnlyAppend(s, '\n');
    LinesAppendEnd(front, '\r');
  }

  lemma CapAppendEmpty(lines: seq<string>)
    requires lines != []
    ensures CapEmpty(lines + [[]]) == CapEmpty(lines) <==> LastLineIsEmpty(lines)
  {
    var more := lines + [[]];
    assert more[..|lines|] == lines;
    assert more[|more| - 2] == lines[|lines| - 1];
    if !LastLineIsEmpty(lines) {
      assert CapEmpty(more) == more;
    }
  }

  /**
   * The comment above the function says that adding or removing the final newline
   * is not an amendment. That holds exactly for documents that already end their
   * last line; the others change their digest.
   */
  lemma FinalNewlineIff(s: string)
    ensures Normalize(s + ['\n']) == Normalize(s) <==> EndsItsLastLine(s)
  {
    if s != [] && s[|s| - 1] == '\r' {
      CrTakesLf(s);
    } else {
      EndsItsLastLineIff(s);
      LinesAppendEnd(s, '\n');
      OneMoreEmptyLine(s + ['\n'], s);
    }
  }

  lemma CrTakesLf(s: string)
    requires s != [] && s[|s| - 1] == '\r'
    ensures Normalize(s + ['\n']) == Normalize(s) && EndsItsLastLine(s)
  {
    LfOnlyAppend(s, '\n');
    assert TrimEnd(s) == s;
  }

  lemma OneMoreEmptyLine(longer: string, s: string)
    requires Lines(longer) == Lines(s) + [[]]
    ensures Normalize(longer) == Normalize(s) <==> LastLineIsEmpty(Lines(s))
  {
    CapAppendEmpty(Lines(s));
    SameFormIff(longer, s);
  }

  lemma FinalNewlineCanCount()
    ensures Normalize("a" + ['\n']) != Normalize("a")
  {
    FinalNewlineIff("a");
  }
}
