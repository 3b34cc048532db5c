/** Normalising sing-box JSONC to strict JSON: comments and trailing commas go, everything a JSON
    reader can see stays. */
module Jsonc {
  import opened Prelude

  // ---------------------------------------------------------------- comment stripping

  /** The text with comments removed, reading from outside any string; the three functions below
      read from inside a string, a line comment and a block comment. */
  function Code(s: seq<char>): (r: seq<char>)
    ensures |r| <= |s|
    decreases |s|, 0
  {
    if s == [] then []
    else if s[0] == '"' then [s[0]] + Quoted(s[1..])
    else if |s| >= 2 && s[0] == '/' && s[1] == '/' then Line(s[2..])
    else if |s| >= 2 && s[0] == '/' && s[1] == '*' then Block(s[2..], '\0')
    else [s[0]] + Code(s[1..])
  }

  function Quoted(s: seq<char>): (r: seq<char>)
    ensures |r| <= |s|
    decreases |s|, 0
  {
    if s == [] then []
    else if s[0] == '\\' then if |s| == 1 then s else s[..2] + Quoted(s[2..])
    else if s[0] == '"' then [s[0]] + Code(s[1..])
    else [s[0]] + Quoted(s[1..])
  }

  function Line(s: seq<char>): (r: seq<char>)
    ensures |r| <= |s|
    decreases |s|, 0
  {
    if s == [] then []
    else if s[0] == '\n' then [s[0]] + Code(s[1..])
    else Line(s[1..])
  }

  function Block(s: seq<char>, previous: char): (r: seq<char>)
    ensures |r| <= |s|
    decreases |s|, 0
  {
    if s == [] then []
    else
      (if s[0] == '\n' then [s[0]] else []) +
      if previous == '*' && s[0] == '/' then Code(s[1..]) else Block(s[1..], s[0])
  }

  /** Consumes a line comment, its line break included; only the line break is kept. */
  method SkipLine(text: seq<char>, start: nat) returns (i: nat, kept: seq<char>)
    requires start <= |text|
    ensures start <= i <= |text| && kept + Code(text[i..]) == Line(text[start..])
  {
    i := start;
    while i < |text|
      invariant start <= i <= |text| && Line(text[i..]) == Line(text[start..])
    {
      assert text[i..][1..] == text[i + 1..];
      if text[i] == '\n' { return i + 1, ['\n']; }
      i := i + 1;
    }
    kept := [];
  }

  /** Consumes a block comment; its line breaks are kept. */
  method SkipBlock(text: seq<char>, start: nat) returns (i: nat, kept: seq<char>)
    requires start <= |text|
    ensures start <= i <= |text| && kept + Code(text[i..]) == Block(text[start..], '\0')
  {
    i, kept := start, [];
    var previous := '\0';
    while i < |text|
      invariant start <= i <= |text| && kept + Block(text[i..], previous) == Block(text[start..], '\0')
    {
      var ch := text[i];
      BlockStep(text, i, previous, kept);
      if ch == '\n' { kept := kept + ['\n']; }
      i := i + 1;
      if previous == '*' && ch == '/' { return; }
      previous := ch;
    }
  }

  lemma {:induction false} BlockStep(text: seq<char>, i: nat, previous: char, kept: seq<char>)
    requires i < |text|
    ensures var ch := text[i];
            var rest := if previous == '*' && ch == '/' then Code(text[i + 1..]) else Block(text[i + 1..], ch);
            kept + Block(text[i..], previous) == (if ch == '\n' then kept + ['\n'] else kept) + rest
  {
    var ch := text[i];
    var rest := if previous == '*' && ch == '/' then Code(text[i + 1..]) else Block(text[i + 1..], ch);
    assert text[i..][1..] == text[i + 1..];
    assert Block(text[i..], previous) == (if ch == '\n' then [ch] else []) + rest;
    Regroup(kept, if ch == '\n' then [ch] else [], rest);
  }

  method SkipComment(text: seq<char>, start: nat) returns (i: nat, kept: seq<char>)
    requires start + 1 < |text| && text[start] == '/' && (text[start + 1] == '/' || text[start + 1] == '*')
    ensures start < i <= |text| && kept + Code(text[i..]) == Code(text[start..])
  {
    assert text[start..][2..] == text[start + 2..];
    if text[start + 1] == '/' {
      i, kept := SkipLine(text, start + 2);
    } else {
      i, kept := SkipBlock(text, start + 2);
    }
  }

  /** `strip_json_comments`: one pass over the characters with an in-string flag. */
  method StripJsonComments(text: seq<char>) returns (output: seq<char>)
    ensures output == Code(text)
  {
    output := [];
    var i, inString := 0, false;
    while i < |text|
      invariant i <= |text|
      invariant output + (if inString then Quoted(text[i..]) else Code(text[i..])) == Code(text)
    {
      var ch := text[i];
      ghost var rest := text[i..];
      i := i + 1;
      assert rest[1..] == text[i..];
      if inString {
        if ch == '\\' && i < |text| {
          assert rest[..2] == [ch, text[i]] && rest[2..] == text[i + 1..];
          Regroup(output, rest[..2], Quoted(rest[2..]));
          output := output + [ch, text[i]];
          i := i + 1;
        } else {
          inString := ch != '"';
          Regroup(output, [ch], if inString then Quoted(rest[1..]) else Code(rest[1..]));
          output := output + [ch];
        }
      } else if ch == '"' {
        inString := true;
        Regroup(output, [ch], Quoted(rest[1..]));
        output := output + [ch];
      } else if ch == '/' && i < |text| && (text[i] == '/' || text[i] == '*') {
        var end, kept := SkipComment(text, i - 1);
        i := end;
        Regroup(output, kept, Code(text[i..]));
        output := output + kept;
      } else {
        Regroup(output, [ch], Code(rest[1..]));
        output := output + [ch];
      }
    }
  }

  /** Stripped text contains no comment: stripping again changes nothing. */
  lemma {:induction false} CodeIdempotent(s: seq<char>)
    ensures Code(Code(s)) == Code(s)
    decreases |s|, 0
  {
    if s == [] {
    } else if s[0] == '"' {
      QuotedIdempotent(s[1..]);
      assert Code(s)[1..] == Quoted(s[1..]);
    } else if |s| >= 2 && s[0] == '/' && s[1] == '/' {
      LineIdempotent(s[2..]);
    } else if |s| >= 2 && s[0] == '/' && s[1] == '*' {
      BlockIdempotent(s[2..], '\0');
    } else {
      CodeIdempotent(s[1..]);
      assert Code(s)[1..] == Code(s[1..]);
    }
  }

  lemma {:induction false} QuotedIdempotent(s: seq<char>)
    ensures Quoted(Quoted(s)) == Quoted(s)
    decreases |s|, 0
  {
    if s == [] {
    } else if s[0] == '\\' {
      if |s| > 1 {
        QuotedIdempotent(s[2..]);
        assert Quoted(s)[..2] == s[..2] && Quoted(s)[2..] == Quoted(s[2..]);
      }
    } else {
      if s[0] == '"' { CodeIdempotent(s[1..]); } else { QuotedIdempotent(s[1..]); }
      assert Quoted(s)[1..] == if s[0] == '"' then Code(s[1..]) else Quoted(s[1..]);
    }
  }

  lemma {:induction false} LineIdempotent(s: seq<char>)
    ensures Code(Line(s)) == Line(s)
    decreases |s|, 0
  {
    if s != [] {
      if s[0] == '\n' {
        CodeIdempotent(s[1..]);
        assert Line(s)[1..] == Code(s[1..]);
      } else {
        LineIdempotent(s[1..]);
      }
    }
  }

  lemma {:induction false} BlockIdempotent(s: seq<char>, previous: char)
    ensures Code(Block(s, previous)) == Block(s, previous)
    decreases |s|, 0
  {
    if s != [] {
      var closes := previous == '*' && s[0] == '/';
      if closes { CodeIdempotent(s[1..]); } else { BlockIdempotent(s[1..], s[0]); }
      var rest := if closes then Code(s[1..]) else Block(s[1..], s[0]);
      assert Block(s, previous) == if s[0] == '\n' then [s[0]] + rest else rest;
      if s[0] == '\n' { assert Block(s, previous)[1..] == rest; }
    }
  }

  function Newlines(s: seq<char>): nat {
    if s == [] then 0 else (if s[0] == '\n' then 1 else 0) + Newlines(s[1..])
  }

  lemma {:induction false} NewlinesAppend(s: seq<char>, t: seq<char>)
    ensures Newlines(s + t) == Newlines(s) + Newlines(t)
  {
    if s == [] {
      assert s + t == t;
    } else {
      NewlinesAppend(s[1..], t);
      assert (s + t)[1..] == s[1..] + t;
    }
  }

  /** Comment stripping keeps every line break, so positions keep their line numbers. */
  lemma {:induction false} CodeKeepsNewlines(s: seq<char>)
    ensures Newlines(Code(s)) == Newlines(s) && Newlines(Quoted(s)) == Newlines(s)
    ensures Newlines(Line(s)) == Newlines(s)
    ensures forall previous :: Newlines(Block(s, previous)) == Newlines(s)
    decreases |s|
  {
    if s != [] {
      CodeKeepsNewlines(s[1..]);
      NewlinesAppend([s[0]], Code(s[1..]));
      NewlinesAppend([s[0]], Quoted(s[1..]));
      forall previous ensures Newlines(Block(s, previous)) == Newlines(s) {
        var rest := if previous == '*' && s[0] == '/' then Code(s[1..]) else Block(s[1..], s[0]);
        assert Block(s, previous) == if s[0] == '\n' then [s[0]] + rest else rest;
        NewlinesAppend([s[0]], rest);
      }
      if |s| >= 2 {
        CodeKeepsNewlines(s[2..]);
        assert s[1..][1..] == s[2..];
        NewlinesAppend(s[..2], Quoted(s[2..]));
        assert s[..2][1..] == [s[1]];
      }
    }
  }

  // ---------------------------------------------------------------- trailing commas

  predicate IsCloser(c: Option<char>) { c == Some(']') || c == Some('}') }

  /** The next character that is not white space. */
  function Next(s: seq<char>): Option<char> {
    if s == [] then None else if IsSpace(s[0]) then Next(s[1..]) else Some(s[0])
  }

  function Commas(s: seq<char>): (r: seq<char>)
    ensures |r| <= |s|
    decreases |s|, 0
  {
    if s == [] then []
    else if s[0] == '"' then [s[0]] + CommasQuoted(s[1..])
    else if s[0] == ',' && IsCloser(Next(s[1..])) then Commas(s[1..])
    else [s[0]] + Commas(s[1..])
  }

  function CommasQuoted(s: seq<char>): (r: seq<char>)
    ensures |r| <= |s|
    decreases |s|, 0
  {
    if s == [] then []
    else if s[0] == '\\' then if |s| == 1 then s else s[..2] + CommasQuoted(s[2..])
    else if s[0] == '"' then [s[0]] + Commas(s[1..])
    else [s[0]] + CommasQuoted(s[1..])
  }

  /** The `find` on the cloned iterator. */
  method NextSignificant(text: seq<char>, start: nat) returns (next: Option<char>)
    requires start <= |text|
    ensures next == Next(text[start..])
  {
    var i := start;
    while i < |text| && IsSpace(text[i])
      invariant start <= i <= |text|
      invariant Next(text[i..]) == Next(text[start..])
    {
      assert text[i..][1..] == text[i + 1..];
      i := i + 1;
    }
    next := if i < |text| then Some(text[i]) else None;
  }

  /** `strip_json_trailing_commas`. */
  method StripJsonTrailingCommas(text: seq<char>) returns (output: seq<char>)
    ensures output == Commas(text)
  {
    output := [];
    var i, inString := 0, false;
    while i < |text|
      invariant i <= |text|
      invariant output + (if inString then CommasQuoted(text[i..]) else Commas(text[i..])) == Commas(text)
    {
      var ch := text[i];
      ghost var rest := text[i..];
      i := i + 1;
      assert rest[1..] == text[i..];
      if inString {
        if ch == '\\' && i < |text| {
          assert rest[..2] == [ch, text[i]] && rest[2..] == text[i + 1..];
          Regroup(output, rest[..2], CommasQuoted(rest[2..]));
          output := output + [ch, text[i]];
          i := i + 1;
        } else {
          inString := ch != '"';
          Regroup(output, [ch], if inString then CommasQuoted(rest[1..]) else Commas(rest[1..]));
          output := output + [ch];
        }
      } else if ch == '"' {
        inString := true;
        Regroup(output, [ch], CommasQuoted(rest[1..]));
        output := output + [ch];
      } else {
        var drop := false;
        if ch == ',' {
          var next := NextSignificant(text, i);
          drop := IsCloser(next);
        }
        if !drop {
          Regroup(output, [ch], Commas(rest[1..]));
          output := output + [ch];
        }
      }
    }
  }

  /** `normalize_sing_box_jsonc`. */
  method NormalizeJsonc(text: seq<char>) returns (output: seq<char>)
    ensures output == Commas(Code(text))
  {
    var stripped := StripJsonComments(text);
    output := StripJsonTrailingCommas(stripped);
  }

  /** The next significant character after the comma that is itself next. */
  function NextAfterComma(s: seq<char>): Option<char> {
    if s == [] then None
    else if IsSpace(s[0]) then NextAfterComma(s[1..])
    else if s[0] == ',' then Next(s[1..]) else None
  }

  /** Somewhere outside a string a comma is followed by a second comma and then a closer. */
  predicate Stacked(s: seq<char>)
    decreases |s|, 0
  {
    s != [] &&
    if s[0] == '"' then StackedQuoted(s[1..])
    else (s[0] == ',' && IsCloser(NextAfterComma(s[1..]))) || Stacked(s[1..])
  }

  predicate StackedQuoted(s: seq<char>)
    decreases |s|, 0
  {
    s != [] &&
    if s[0] == '\\' then |s| > 1 && StackedQuoted(s[2..])
    else if s[0] == '"' then Stacked(s[1..])
    else StackedQuoted(s[1..])
  }

  lemma {:induction false} NextOfCommas(s: seq<char>)
    ensures Next(Commas(s)) == if IsCloser(NextAfterComma(s)) then NextAfterComma(s) else Next(s)
  {
    if s != [] {
      if IsSpace(s[0]) {
        NextOfCommas(s[1..]);
        assert Commas(s)[1..] == Commas(s[1..]);
      } else if s[0] == ',' && IsCloser(Next(s[1..])) {
        NextOfCommas(s[1..]);
        CloserIsNoComma(s[1..]);
      }
    }
  }

  lemma {:induction false} CloserIsNoComma(s: seq<char>)
    requires IsCloser(Next(s))
    ensures NextAfterComma(s) == None
  {
    if IsSpace(s[0]) { CloserIsNoComma(s[1..]); }
  }

  lemma {:induction false} CommaIsNoCloser(s: seq<char>)
    requires NextAfterComma(s).Some?
    ensures Next(s) == Some(',')
  {
    if IsSpace(s[0]) { CommaIsNoCloser(s[1..]); }
  }

  /** One pass removes all trailing commas exactly when none is stacked on another. */
  lemma {:induction false} CommasIdempotentIff(s: seq<char>)
    ensures Commas(Commas(s)) == Commas(s) <==> !Stacked(s)
    decreases |s|, 0
  {
    if s == [] {
    } else if s[0] == '"' {
      CommasQuotedIdempotentIff(s[1..]);
      assert Commas(s)[1..] == CommasQuoted(s[1..]);
      Prepended(s[0], CommasQuoted(CommasQuoted(s[1..])), CommasQuoted(s[1..]));
    } else {
      CommasIdempotentIff(s[1..]);
      if s[0] == ',' && IsCloser(Next(s[1..])) {
        CloserIsNoComma(s[1..]);
      } else {
        var t := Commas(s[1..]);
        assert Commas(s)[1..] == t;
        NextOfCommas(s[1..]);
        Prepended(s[0], Commas(t), t);
        if IsCloser(NextAfterComma(s[1..])) { CommaIsNoCloser(s[1..]); }
      }
    }
  }

  lemma {:induction false} CommasQuotedIdempotentIff(s: seq<char>)
    ensures CommasQuoted(CommasQuoted(s)) == CommasQuoted(s) <==> !StackedQuoted(s)
    decreases |s|, 0
  {
    if s == [] {
    } else if s[0] == '\\' {
      if |s| > 1 {
        CommasQuotedIdempotentIff(s[2..]);
        var t := CommasQuoted(s[2..]);
        assert CommasQuoted(s)[..2] == s[..2] && CommasQuoted(s)[2..] == t;
        assert (s[..2] + CommasQuoted(t))[2..] == CommasQuoted(t) && (s[..2] + t)[2..] == t;
      }
    } else if s[0] == '"' {
      CommasIdempotentIff(s[1..]);
      assert CommasQuoted(s)[1..] == Commas(s[1..]);
      Prepended(s[0], Commas(Commas(s[1..])), Commas(s[1..]));
    } else {
      CommasQuotedIdempotentIff(s[1..]);
      assert CommasQuoted(s)[1..] == CommasQuoted(s[1..]);
      Prepended(s[0], CommasQuoted(CommasQuoted(s[1..])), CommasQuoted(s[1..]));
    }
  }

  lemma {:induction false} Prepended(c: char, a: seq<char>, b: seq<char>)
    ensures [c] + a == [c] + b <==> a == b
  {
    assert ([c] + a)[1..] == a && ([c] + b)[1..] == b;
  }

  /** For instance, `[1,,]` keeps a trailing comma after one pass. */
  lemma {:induction false} StackedCommasNeedTwoPasses()
    ensures Stacked("[1,,]") && Commas("[1,,]") == "[1,]" && Commas("[1,]") == "[1]"
  {
    assert "[1,,]"[1..] == "1,,]" && "1,,]"[1..] == ",,]" && ",,]"[1..] == ",]" && ",]"[1..] == "]" && "]"[1..] == "";
    assert "[1,]"[1..] == "1,]" && "1,]"[1..] == ",]";
    assert Commas("]") == "]" && Commas(",]") == "]" && Commas(",,]") == ",]" && Commas("1,,]") == "1,]";
    assert Commas("1,]") == "1]";
  }
}
