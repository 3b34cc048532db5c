/** What normalisation does to any text at all, well formed or not: every text falls into plain characters, strings and
    comments, the last of which may be left open, and this says which of them stay. */
module JsoncCuts {
  import opened Prelude
  import opened Jsonc
  import opened JsoncTokens

  /** A cut of a text; a string or a comment that the text leaves open reaches to its end. */
  datatype Cut =
    | Char(c: char)
    | Quote(body: seq<char>, closed: bool)
    | LineNote(body: seq<char>, closed: bool)
    | BlockNote(body: seq<char>, closed: bool)

  function CutText(cut: Cut): seq<char> {
    match cut
    case Char(c) => [c]
    case Quote(body, closed) => "\"" + body + if closed then "\"" else ""
    case LineNote(body, closed) => "//" + body + if closed then "\n" else ""
    case BlockNote(body, closed) => "/*" + body + if closed then "*/" else ""
  }

  function TextOf(cuts: seq<Cut>): seq<char> {
    if cuts == [] then [] else CutText(cuts[0]) + TextOf(cuts[1..])
  }

  /** No quote but an escaped one; the text may end within an escape. */
  predicate OpenBody(b: seq<char>) {
    b == [] || if b[0] == '\\' then |b| == 1 || OpenBody(b[2..]) else b[0] != '"' && OpenBody(b[1..])
  }

  predicate IsString(cut: Cut, rest: seq<char>) {
    cut.Quote? && if cut.closed then StringBody(cut.body) else OpenBody(cut.body) && rest == []
  }

  /** A cut where a reader makes it, in front of the rest of the text. */
  predicate IsCut(cut: Cut, rest: seq<char>) {
    match cut
    case Char(c) => c != '"' && !(c == '/' && rest != [] && (rest[0] == '/' || rest[0] == '*'))
    case Quote(_, _) => IsString(cut, rest)
    case LineNote(body, closed) => '\n' !in body && (closed || rest == [])
    case BlockNote(body, closed) => NoBlockEnd(body) && (closed || rest == [])
  }

  predicate WellCut(cuts: seq<Cut>) { cuts == [] || (IsCut(cuts[0], TextOf(cuts[1..])) && WellCut(cuts[1..])) }

  /** Of a comment only the line breaks stay; all else stays as it is. */
  function WithoutNote(cut: Cut): seq<char> {
    match cut
    case LineNote(_, closed) => if closed then "\n" else ""
    case BlockNote(body, _) => LineBreaks(body)
    case _ => CutText(cut)
  }

  function WithoutNotes(cuts: seq<Cut>): seq<char> {
    if cuts == [] then [] else WithoutNote(cuts[0]) + WithoutNotes(cuts[1..])
  }

  // ---------------------------------------------------------------- strings

  lemma {:induction false} OpenStays(body: seq<char>)
    requires OpenBody(body)
    ensures Quoted(body) == body && CommasQuoted(body) == body
  {
    if body != [] {
      if body[0] == '\\' {
        if |body| > 1 {
          OpenStays(body[2..]);
          assert body == body[..2] + body[2..];
        }
      } else {
        OpenStays(body[1..]);
        assert body == [body[0]] + body[1..];
      }
    }
  }

  lemma {:induction false} StringStays(cut: Cut, rest: seq<char>)
    requires IsString(cut, rest)
    ensures Code(CutText(cut) + rest) == CutText(cut) + Code(rest)
    ensures Commas(CutText(cut) + rest) == CutText(cut) + Commas(rest)
  {
    if cut.closed {
      assert CutText(cut) == TokenText(Str(cut.body));
      CodeOfString(cut.body, rest);
      CommasOfString(cut.body, rest);
    } else {
      OpenStays(cut.body);
      assert CutText(cut) + rest == ['"'] + cut.body && (['"'] + cut.body)[1..] == cut.body;
    }
  }

  /** The string that a text goes on with after an opening quote. */
  lemma {:induction false} StringIsCut(s: seq<char>) returns (cut: Cut, rest: seq<char>)
    ensures IsString(cut, rest) && CutText(cut) + rest == "\"" + s && |rest| <= |s|
  {
    if s == [] {
      cut, rest := Quote([], false), [];
    } else if s[0] == '"' {
      cut, rest := Quote([], true), s[1..];
    } else if s == ['\\'] {
      cut, rest := Quote(s, false), [];
    } else {
      var k := if s[0] == '\\' then 2 else 1;
      var inner;
      inner, rest := StringIsCut(s[k..]);
      cut := Quote(s[..k] + inner.body, inner.closed);
      assert cut.body[k..] == inner.body && cut.body[0] == s[0];
      StringGrows(s[..k], s[k..], inner, rest);
      assert s == s[..k] + s[k..];
    }
  }

  lemma {:induction false} StringGrows(front: seq<char>, back: seq<char>, inner: Cut, rest: seq<char>)
    requires inner.Quote? && CutText(inner) + rest == "\"" + back
    ensures CutText(Quote(front + inner.body, inner.closed)) + rest == "\"" + (front + back)
  {
    var end := if inner.closed then "\"" else "";
    assert "\"" + (inner.body + end + rest) == CutText(inner) + rest;
    assert inner.body + end + rest == ("\"" + back)[1..];
    Chained(front, inner.body, end, rest);
  }

  lemma {:induction false} Chained(a: seq<char>, b: seq<char>, c: seq<char>, d: seq<char>)
    ensures "\"" + (a + b) + c + d == "\"" + (a + (b + c + d))
  {
  }

  // ---------------------------------------------------------------- comments

  lemma {:induction false} LineNoteGoes(body: seq<char>, closed: bool, rest: seq<char>)
    requires IsCut(LineNote(body, closed), rest)
    ensures Code(CutText(LineNote(body, closed)) + rest) == WithoutNote(LineNote(body, closed)) + Code(rest)
  {
    var s := CutText(LineNote(body, closed)) + rest;
    if closed {
      assert s[2..] == body + ("\n" + rest);
      LineDrops(body, rest);
    } else {
      assert s[2..] == body;
      LineToTheEnd(body);
    }
  }

  lemma {:induction false} BlockNoteGoes(body: seq<char>, closed: bool, rest: seq<char>)
    requires IsCut(BlockNote(body, closed), rest)
    ensures Code(CutText(BlockNote(body, closed)) + rest) == WithoutNote(BlockNote(body, closed)) + Code(rest)
  {
    var s := CutText(BlockNote(body, closed)) + rest;
    if closed {
      assert s[2..] == body + ("*/" + rest);
      forall p ensures Block("*/" + rest, p) == Code(rest) { BlockEnds(rest, p); }
      BlockDrops(body, "*/" + rest, Code(rest), '\0');
    } else {
      assert s[2..] == body + [];
      BlockDrops(body, [], [], '\0');
    }
  }

  lemma {:induction false} CharStays(c: char, rest: seq<char>)
    requires IsCut(Char(c), rest)
    ensures Code([c] + rest) == [c] + Code(rest)
  {
    assert ([c] + rest)[1..] == rest;
  }

  /** Comment stripping, on any cut text: comments go but for their line breaks, and nothing else does. */
  lemma {:induction false} NotesAreStripped(cuts: seq<Cut>)
    requires WellCut(cuts)
    ensures Code(TextOf(cuts)) == WithoutNotes(cuts)
  {
    if cuts != [] {
      var rest := TextOf(cuts[1..]);
      NotesAreStripped(cuts[1..]);
      match cuts[0]
      case Char(c) => CharStays(c, rest);
      case Quote(_, _) => StringStays(cuts[0], rest);
      case LineNote(body, closed) => LineNoteGoes(body, closed, rest);
      case BlockNote(body, closed) => BlockNoteGoes(body, closed, rest);
    }
  }

  /** The rest of a line comment. */
  lemma {:induction false} LineIsCut(s: seq<char>) returns (cut: Cut, rest: seq<char>)
    ensures cut.LineNote? && IsCut(cut, rest) && CutText(cut) + rest == "//" + s && |rest| <= |s|
  {
    if i :| 0 <= i < |s| && s[i] == '\n' && '\n' !in s[..i] {
      cut, rest := LineNote(s[..i], true), s[i + 1..];
      assert s == s[..i] + "\n" + s[i + 1..];
    } else {
      FirstBreak(s);
      cut, rest := LineNote(s, false), [];
    }
  }

  lemma {:induction false} FirstBreak(s: seq<char>)
    ensures '\n' in s ==> exists i :: 0 <= i < |s| && s[i] == '\n' && '\n' !in s[..i]
  {
    if '\n' in s {
      var n := |s| - 1;
      FirstBreak(s[..n]);
      if '\n' in s[..n] {
        var i :| 0 <= i < n && s[..n][i] == '\n' && '\n' !in s[..n][..i];
        assert s[..n][..i] == s[..i];
      } else {
        assert s[n] == '\n';
      }
    }
  }

  /** The rest of a block comment. */
  lemma {:induction false} BlockIsCut(s: seq<char>) returns (cut: Cut, rest: seq<char>)
    ensures cut.BlockNote? && IsCut(cut, rest) && CutText(cut) + rest == "/*" + s && |rest| <= |s|
  {
    if NoBlockEnd(s) {
      cut, rest := BlockNote(s, false), [];
    } else {
      var i := FirstEnd(s);
      cut, rest := BlockNote(s[..i], true), s[i + 2..];
      assert s == s[..i] + "*/" + s[i + 2..];
    }
  }

  lemma {:induction false} FirstEnd(s: seq<char>) returns (i: nat)
    requires !NoBlockEnd(s)
    ensures i + 1 < |s| && s[i] == '*' && s[i + 1] == '/' && NoBlockEnd(s[..i])
  {
    var front := s[..|s| - 1];
    if NoBlockEnd(front) {
      i := |s| - 2;
      forall k | 0 <= k < |s| - 2 ensures !(s[k] == '*' && s[k + 1] == '/') {
        assert front[k] == s[k] && front[k + 1] == s[k + 1];
      }
      assert forall k :: 0 <= k < i ==> s[..i][k] == front[k];
    } else {
      i := FirstEnd(front);
      assert front[..i] == s[..i];
    }
  }

  /** Every text is cut somehow. */
  lemma {:induction false} EveryTextIsCut(s: seq<char>) returns (cuts: seq<Cut>)
    ensures WellCut(cuts) && TextOf(cuts) == s
    decreases |s|
  {
    if s == [] {
      cuts := [];
    } else {
      var cut, rest := FirstIsCut(s);
      var more := EveryTextIsCut(rest);
      cuts := [cut] + more;
      assert cuts[1..] == more;
    }
  }

  lemma {:induction false} FirstIsCut(s: seq<char>) returns (cut: Cut, rest: seq<char>)
    requires s != []
    ensures IsCut(cut, rest) && CutText(cut) + rest == s && |rest| < |s|
  {
    if s[0] == '"' {
      cut, rest := StringIsCut(s[1..]);
    } else if |s| >= 2 && s[0] == '/' && s[1] == '/' {
      cut, rest := LineIsCut(s[2..]);
      assert s == "//" + s[2..];
    } else if |s| >= 2 && s[0] == '/' && s[1] == '*' {
      cut, rest := BlockIsCut(s[2..]);
      assert s == "/*" + s[2..];
    } else {
      cut, rest := Char(s[0]), s[1..];
    }
  }

  // ---------------------------------------------------------------- trailing commas

  predicate IsStringOrChar(cut: Cut, rest: seq<char>) { if cut.Char? then cut.c != '"' else IsString(cut, rest) }

  predicate WellQuoted(cuts: seq<Cut>) {
    cuts == [] || (IsStringOrChar(cuts[0], TextOf(cuts[1..])) && WellQuoted(cuts[1..]))
  }

  predicate IsBlank(cut: Cut) { cut.Char? && cut.c in SPACES }

  /** All white space there is. */
  const SPACES: set<char> :=
    {'\U{9}', '\U{A}', '\U{B}', '\U{C}', '\U{D}', '\U{20}', '\U{85}', '\U{A0}', '\U{1680}', '\U{2000}', '\U{2001}',
     '\U{2002}', '\U{2003}', '\U{2004}', '\U{2005}', '\U{2006}', '\U{2007}', '\U{2008}', '\U{2009}', '\U{200A}',
     '\U{2028}', '\U{2029}', '\U{202F}', '\U{205F}', '\U{3000}'}

  /** With nothing but white space between, a bracket or brace is closed next. */
  predicate ClosesNext(cuts: seq<Cut>) {
    exists j :: 0 <= j < |cuts| && ClosesAt(cuts, j)
  }

  predicate ClosesAt(cuts: seq<Cut>, j: nat)
    requires j < |cuts|
  {
    (cuts[j] == Char(']') || cuts[j] == Char('}')) && forall i :: 0 <= i < j ==> IsBlank(cuts[i])
  }

  function WithoutTrailing(cuts: seq<Cut>): seq<char> {
    if cuts == [] then []
    else (if cuts[0] == Char(',') && ClosesNext(cuts[1..]) then "" else CutText(cuts[0])) + WithoutTrailing(cuts[1..])
  }

  lemma {:induction false} SpaceMeaning(c: char)
    ensures IsSpace(c) <==> c in SPACES
  {
  }

  lemma {:induction false} NextMeaning(cuts: seq<Cut>)
    requires WellQuoted(cuts)
    ensures IsCloser(Next(TextOf(cuts))) <==> ClosesNext(cuts)
  {
    if cuts != [] {
      var text, rest := TextOf(cuts), TextOf(cuts[1..]);
      if cuts[0].Char? { SpaceMeaning(cuts[0].c); }
      if IsBlank(cuts[0]) {
        NextMeaning(cuts[1..]);
        assert text[1..] == rest;
        BlankFirst(cuts);
      } else {
        assert text[0] == CutText(cuts[0])[0];
        NoBlankFirst(cuts);
      }
    }
  }

  lemma {:induction false} BlankFirst(cuts: seq<Cut>)
    requires cuts != [] && IsBlank(cuts[0])
    ensures ClosesNext(cuts) <==> ClosesNext(cuts[1..])
  {
    var rest := cuts[1..];
    if j :| 0 <= j < |cuts| && ClosesAt(cuts, j) {
      assert j > 0;
      forall i | 0 <= i < j - 1 ensures IsBlank(rest[i]) { assert rest[i] == cuts[i + 1]; }
      assert ClosesAt(rest, j - 1);
    }
    if j :| 0 <= j < |rest| && ClosesAt(rest, j) {
      forall i | 0 <= i < j + 1 ensures IsBlank(cuts[i]) {
        if i > 0 { assert IsBlank(rest[i - 1]); }
      }
      assert ClosesAt(cuts, j + 1);
    }
  }

  lemma {:induction false} NoBlankFirst(cuts: seq<Cut>)
    requires cuts != [] && !IsBlank(cuts[0])
    ensures ClosesNext(cuts) <==> cuts[0] == Char(']') || cuts[0] == Char('}')
  {
    if j :| 0 <= j < |cuts| && ClosesAt(cuts, j) { assert j == 0; }
    if cuts[0] == Char(']') || cuts[0] == Char('}') { assert ClosesAt(cuts, 0); }
  }

  /** Comma stripping, on any cut text: a comma outside strings goes exactly when a closer comes next. */
  lemma {:induction false} TrailingCommasAreStripped(cuts: seq<Cut>)
    requires WellQuoted(cuts)
    ensures Commas(TextOf(cuts)) == WithoutTrailing(cuts)
  {
    if cuts != [] {
      var rest := TextOf(cuts[1..]);
      TrailingCommasAreStripped(cuts[1..]);
      if cuts[0].Char? {
        NextMeaning(cuts[1..]);
        assert TextOf(cuts)[1..] == rest;
      } else {
        StringStays(cuts[0], rest);
      }
    }
  }

  /** Every text is cut into characters and strings. */
  lemma {:induction false} EveryTextIsQuoted(s: seq<char>) returns (cuts: seq<Cut>)
    ensures WellQuoted(cuts) && TextOf(cuts) == s
    decreases |s|
  {
    if s == [] {
      cuts := [];
    } else {
      var cut, rest;
      if s[0] == '"' { cut, rest := StringIsCut(s[1..]); } else { cut, rest := Char(s[0]), s[1..]; }
      assert CutText(cut) + rest == s;
      var more := EveryTextIsQuoted(rest);
      cuts := [cut] + more;
      assert cuts[1..] == more;
    }
  }
}
