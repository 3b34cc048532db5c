/** What normalisation means to a JSON reader: any JSON token sequence, decorated with white space,
    comments and trailing commas, comes back token for token. */
module JsoncTokens {
  import opened Prelude
  import opened Jsonc

  /** A JSON token: punctuation, a string with the raw text between its quotes, or a bare literal
      (number, `true`, `false`, `null`). */
  datatype Token = Punct(c: char) | Str(body: seq<char>) | Bare(chars: seq<char>)

  predicate IsPunct(c: char) { c in "{}[]:," }

  predicate IsBare(c: char) {
    '0' <= c <= '9' || 'a' <= c <= 'z' || 'A' <= c <= 'Z' || c in "+-."
  }

  /** Quotes are escaped and no escape is left open. */
  predicate StringBody(b: seq<char>) {
    b == [] ||
    if b[0] == '\\' then |b| >= 2 && StringBody(b[2..]) else b[0] != '"' && StringBody(b[1..])
  }

  predicate WellFormed(t: Token) {
    match t
    case Punct(c) => IsPunct(c)
    case Str(body) => StringBody(body)
    case Bare(chars) => chars != [] && forall i :: 0 <= i < |chars| ==> IsBare(chars[i])
  }

  function TokenText(t: Token): seq<char> {
    match t
    case Punct(c) => [c]
    case Str(body) => ['"'] + body + ['"']
    case Bare(chars) => chars
  }

  /** One piece of a decorated document. `Extra` is a trailing comma that is not a token. */
  datatype Piece =
    | Tok(token: Token)
    | White(c: char)
    | LineComment(body: seq<char>)
    | BlockComment(body: seq<char>)
    | Extra

  predicate NoBlockEnd(b: seq<char>) {
    forall i :: 0 <= i < |b| - 1 ==> !(b[i] == '*' && b[i + 1] == '/')
  }

  predicate WellFormedPiece(p: Piece) {
    match p
    case Tok(t) => WellFormed(t)
    case White(c) => c in " \t\r\n"
    case LineComment(body) => '\n' !in body
    case BlockComment(body) => NoBlockEnd(body)
    case Extra => true
  }

  function PieceText(p: Piece): seq<char> {
    match p
    case Tok(t) => TokenText(t)
    case White(c) => [c]
    case LineComment(body) => "//" + body + "\n"
    case BlockComment(body) => "/*" + body + "*/"
    case Extra => ","
  }

  function Text(doc: seq<Piece>): seq<char> {
    if doc == [] then [] else PieceText(doc[0]) + Text(doc[1..])
  }

  function Tokens(doc: seq<Piece>): seq<Token> {
    if doc == [] then []
    else (if doc[0].Tok? then [doc[0].token] else []) + Tokens(doc[1..])
  }

  /** The next piece that is a token or an extra comma. */
  function NextPiece(doc: seq<Piece>): Option<Piece> {
    if doc == [] then None else if doc[0].Tok? || doc[0].Extra? then Some(doc[0]) else NextPiece(doc[1..])
  }

  predicate ClosingPiece(p: Option<Piece>) {
    p.Some? && p.value.Tok? && p.value.token in {Punct(']'), Punct('}')}
  }

  /** The pieces are well formed; every extra comma is the last thing before a closer; no comma token
      is; and no two bare literals meet. */
  predicate Decorated(doc: seq<Piece>) {
    doc == [] ||
    (WellFormedPiece(doc[0]) && Decorated(doc[1..]) &&
     var next := NextPiece(doc[1..]);
     (doc[0].Extra? ==> ClosingPiece(next)) &&
     (doc[0] == Tok(Punct(',')) ==> !ClosingPiece(next) && next != Some(Extra)) &&
     (doc[0].Tok? && doc[0].token.Bare? ==> !(next.Some? && next.value.Tok? && next.value.token.Bare?)))
  }

  // ---------------------------------------------------------------- the reader

  /** Splits text into tokens, skipping white space; bare literals extend as far as they can. */
  function Lex(s: seq<char>): Option<seq<Token>>
    decreases |s|
  {
    if s == [] then Some([])
    else if s[0] in " \t\r\n" then Lex(s[1..])
    else if IsPunct(s[0]) then Consed(Punct(s[0]), Lex(s[1..]))
    else if s[0] == '"' then
      match StringEnd(s[1..])
      case None => None
      case Some(n) => Consed(Str(s[1..][..n]), Lex(s[1..][n + 1..]))
    else if IsBare(s[0]) then
      var n := BareLength(s);
      Consed(Bare(s[..n]), Lex(s[n..]))
    else None
  }

  function Consed(t: Token, rest: Option<seq<Token>>): Option<seq<Token>> {
    match rest case None => None case Some(ts) => Some([t] + ts)
  }

  /** The position of the closing quote. */
  function StringEnd(s: seq<char>): (n: Option<nat>)
    ensures n.Some? ==> n.value < |s|
    decreases |s|
  {
    if s == [] then None
    else if s[0] == '"' then Some(0)
    else
      var skip := if s[0] == '\\' then 2 else 1;
      if |s| < skip then None
      else
        match StringEnd(s[skip..])
        case None => None
        case Some(n) => Some(skip + n)
  }

  function BareLength(s: seq<char>): (n: nat)
    ensures n <= |s| && (s != [] && IsBare(s[0]) ==> n > 0)
  {
    if s == [] || !IsBare(s[0]) then 0 else 1 + BareLength(s[1..])
  }

  // ---------------------------------------------------------------- comments

  /** A document without comments: each one leaves its line breaks. */
  function Plain(doc: seq<Piece>): seq<Piece> {
    if doc == [] then [] else PlainPiece(doc[0]) + Plain(doc[1..])
  }

  function PlainPiece(p: Piece): seq<Piece> {
    match p
    case LineComment(_) => [White('\n')]
    case BlockComment(body) => Breaks(body)
    case _ => [p]
  }

  function Breaks(b: seq<char>): seq<Piece> {
    if b == [] then [] else (if b[0] == '\n' then [White('\n')] else []) + Breaks(b[1..])
  }

  function Joined<T>(s: seq<T>, text: T -> seq<char>): seq<char> {
    if s == [] then [] else text(s[0]) + Joined(s[1..], text)
  }

  lemma {:induction false} JoinedAppend<T>(a: seq<T>, b: seq<T>, text: T -> seq<char>)
    ensures Joined(a + b, text) == Joined(a, text) + Joined(b, text)
  {
    if a == [] {
      assert a + b == b;
    } else {
      JoinedAppend(a[1..], b, text);
      assert (a + b)[1..] == a[1..] + b;
      Regroup(text(a[0]), Joined(a[1..], text), Joined(b, text));
    }
  }

  lemma {:induction false} TextIsJoined(doc: seq<Piece>)
    ensures Text(doc) == Joined(doc, PieceText)
  {
    if doc != [] { TextIsJoined(doc[1..]); }
  }

  lemma {:induction false} TextAppend(a: seq<Piece>, b: seq<Piece>)
    ensures Text(a + b) == Text(a) + Text(b)
  {
    TextIsJoined(a);
    TextIsJoined(b);
    TextIsJoined(a + b);
    JoinedAppend(a, b, PieceText);
  }

  lemma {:induction false} CodePassesBare(chars: seq<char>, rest: seq<char>)
    requires forall i :: 0 <= i < |chars| ==> chars[i] != '"' && chars[i] != '/'
    ensures Code(chars + rest) == chars + Code(rest)
  {
    if chars == [] {
      assert chars + rest == rest;
    } else {
      CodePassesBare(chars[1..], rest);
      assert (chars + rest)[1..] == chars[1..] + rest;
    }
  }

  /** Reading past a string body: `body` and its closing quote in front of `rest`. */
  function Closed(body: seq<char>, rest: seq<char>): seq<char> { body + (['"'] + rest) }

  lemma {:induction false} ClosedStep(body: seq<char>, rest: seq<char>, k: nat)
    requires k <= |body|
    ensures Closed(body, rest)[..k] == body[..k] && Closed(body, rest)[k..] == Closed(body[k..], rest)
    ensures body[..k] + Closed(body[k..], rest) == Closed(body, rest)
  {
    assert body == body[..k] + body[k..];
    Regroup(body[..k], body[k..], ['"'] + rest);
  }

  lemma {:induction false} QuotedPassesBody(body: seq<char>, rest: seq<char>)
    requires StringBody(body)
    ensures Quoted(Closed(body, rest)) == Closed(body, Code(rest))
  {
    if body == [] {
      assert Closed(body, rest) == ['"'] + rest;
      assert (['"'] + rest)[1..] == rest;
    } else {
      var k := if body[0] == '\\' then 2 else 1;
      QuotedPassesBody(body[k..], rest);
      ClosedStep(body, rest, k);
      ClosedStep(body, Code(rest), k);
      assert Closed(body, rest)[0] == body[0] && [body[0]] == body[..1];
    }
  }

  lemma {:induction false} CommasPassBody(body: seq<char>, rest: seq<char>)
    requires StringBody(body)
    ensures CommasQuoted(Closed(body, rest)) == Closed(body, Commas(rest))
  {
    if body == [] {
      assert Closed(body, rest) == ['"'] + rest;
      assert (['"'] + rest)[1..] == rest;
    } else {
      var k := if body[0] == '\\' then 2 else 1;
      CommasPassBody(body[k..], rest);
      ClosedStep(body, rest, k);
      ClosedStep(body, Commas(rest), k);
      assert Closed(body, rest)[0] == body[0] && [body[0]] == body[..1];
    }
  }

  lemma {:induction false} StringEndsAtQuote(body: seq<char>, rest: seq<char>)
    requires StringBody(body)
    ensures StringEnd(Closed(body, rest)) == Some(|body|)
  {
    if body != [] {
      var k := if body[0] == '\\' then 2 else 1;
      StringEndsAtQuote(body[k..], rest);
      ClosedStep(body, rest, k);
      assert Closed(body, rest)[0] == body[0];
    }
  }

  lemma {:induction false} LineDrops(body: seq<char>, rest: seq<char>)
    requires '\n' !in body
    ensures Line(body + ("\n" + rest)) == "\n" + Code(rest)
  {
    var s := body + ("\n" + rest);
    if body == [] {
      assert s[1..] == rest;
    } else {
      LineDrops(body[1..], rest);
      assert s[1..] == body[1..] + ("\n" + rest);
    }
  }

  function LineBreaks(body: seq<char>): seq<char> {
    if body == [] then [] else if body[0] == '\n' then ['\n'] + LineBreaks(body[1..]) else LineBreaks(body[1..])
  }

  lemma {:induction false} BreaksAreLineBreaks(body: seq<char>)
    ensures Text(Breaks(body)) == LineBreaks(body)
  {
    if body != [] {
      BreaksAreLineBreaks(body[1..]);
      TextOfBreaks(body);
    }
  }

  /** A comment body in front of text on which the comment ends. */
  lemma {:induction false} BlockDrops(body: seq<char>, tail: seq<char>, out: seq<char>, previous: char)
    requires NoBlockEnd(body) && (body != [] ==> !(previous == '*' && body[0] == '/'))
    requires forall p :: Block(tail, p) == out
    ensures Block(body + tail, previous) == LineBreaks(body) + out
  {
    if body == [] {
      assert body + tail == tail;
    } else {
      var rest := body[1..] + tail;
      BlockDrops(body[1..], tail, out, body[0]);
      assert body == [body[0]] + body[1..];
      Regroup([body[0]], body[1..], tail);
      BlockGoesOn(body[0], rest, previous);
      Regroup(['\n'], LineBreaks(body[1..]), out);
    }
  }

  lemma {:induction false} BlockGoesOn(c: char, rest: seq<char>, previous: char)
    requires !(previous == '*' && c == '/')
    ensures Block([c] + rest, previous) == if c == '\n' then ['\n'] + Block(rest, c) else Block(rest, c)
  {
    assert ([c] + rest)[1..] == rest;
  }

  lemma {:induction false} BlockEnds(rest: seq<char>, previous: char)
    ensures Block("*/" + rest, previous) == Code(rest)
  {
    assert ("*/" + rest)[1..] == "/" + rest && ("/" + rest)[1..] == rest;
    assert Block("/" + rest, '*') == Code(rest);
  }

  lemma {:induction false} TextOfBreaks(body: seq<char>)
    requires body != []
    ensures Text(Breaks(body)) == if body[0] == '\n' then ['\n'] + Text(Breaks(body[1..])) else Text(Breaks(body[1..]))
  {
    if body[0] == '\n' { assert Breaks(body)[1..] == Breaks(body[1..]); }
    else { assert Breaks(body) == Breaks(body[1..]); }
  }

  lemma {:induction false} TextOfOne(p: Piece)
    ensures Text([p]) == PieceText(p)
  {
    assert Text([p][1..]) == [];
  }

  lemma {:induction false} CodeOfPiece(p: Piece, rest: seq<char>)
    requires WellFormedPiece(p)
    ensures Code(PieceText(p) + rest) == Text(PlainPiece(p)) + Code(rest)
  {
    TextOfOne(p);
    match p
    case White(_) => CodePassesBare(PieceText(p), rest);
    case Extra => CodePassesBare(PieceText(p), rest);
    case LineComment(body) => CodeOfLine(body, rest);
    case BlockComment(body) => CodeOfBlock(body, rest);
    case Tok(t) => if t.Str? { CodeOfString(t.body, rest); } else { CodePassesBare(PieceText(p), rest); }
  }

  lemma {:induction false} CodeOfLine(body: seq<char>, rest: seq<char>)
    requires '\n' !in body
    ensures Code("//" + body + "\n" + rest) == Text([White('\n')]) + Code(rest)
  {
    var s := "//" + body + "\n" + rest;
    assert s[2..] == body + ("\n" + rest);
    LineDrops(body, rest);
    TextOfOne(White('\n'));
  }

  lemma {:induction false} CodeOfBlock(body: seq<char>, rest: seq<char>)
    requires NoBlockEnd(body)
    ensures Code("/*" + body + "*/" + rest) == Text(Breaks(body)) + Code(rest)
  {
    var s := "/*" + body + "*/" + rest;
    assert s[2..] == body + ("*/" + rest);
    forall p ensures Block("*/" + rest, p) == Code(rest) { BlockEnds(rest, p); }
    BlockDrops(body, "*/" + rest, Code(rest), '\0');
    BreaksAreLineBreaks(body);
  }

  lemma {:induction false} StringText(body: seq<char>, rest: seq<char>)
    ensures TokenText(Str(body)) + rest == ['"'] + Closed(body, rest)
    ensures (TokenText(Str(body)) + rest)[1..] == Closed(body, rest)
  {
  }

  lemma {:induction false} CodeOfString(body: seq<char>, rest: seq<char>)
    requires StringBody(body)
    ensures Code(TokenText(Str(body)) + rest) == TokenText(Str(body)) + Code(rest)
  {
    StringText(body, rest);
    QuotedPassesBody(body, rest);
    StringText(body, Code(rest));
  }

  predicate AllWellFormed(doc: seq<Piece>) {
    forall i :: 0 <= i < |doc| ==> WellFormedPiece(doc[i])
  }

  lemma {:induction false} DecoratedIsWellFormed(doc: seq<Piece>)
    requires Decorated(doc)
    ensures AllWellFormed(doc)
  {
    if doc != [] { DecoratedIsWellFormed(doc[1..]); }
  }

  /** Stripping the comments of any sequence of pieces, whatever text follows, leaves the same pieces without
      comments and goes on behind them. */
  lemma {:induction false} CommentsAreStripped(doc: seq<Piece>, rest: seq<char>)
    requires AllWellFormed(doc)
    ensures Code(Text(doc) + rest) == Text(Plain(doc)) + Code(rest)
  {
    if doc == [] {
      assert Text(doc) + rest == rest;
    } else {
      CommentsAreStripped(doc[1..], rest);
      StripFirst(doc[0], Text(doc[1..]), rest, Plain(doc[1..]));
    }
  }

  lemma {:induction false} StripFirst(p: Piece, text: seq<char>, rest: seq<char>, plain: seq<Piece>)
    requires WellFormedPiece(p) && Code(text + rest) == Text(plain) + Code(rest)
    ensures Code(PieceText(p) + text + rest) == Text(PlainPiece(p) + plain) + Code(rest)
  {
    Regroup(PieceText(p), text, rest);
    CodeOfPiece(p, text + rest);
    TextAppend(PlainPiece(p), plain);
    Regroup(Text(PlainPiece(p)), Text(plain), Code(rest));
  }

  /** A line comment that the end of the text cuts short. */
  function EndText(comment: Option<seq<char>>): seq<char> {
    match comment case Some(body) => "//" + body case None => []
  }

  lemma {:induction false} LineToTheEnd(body: seq<char>)
    requires '\n' !in body
    ensures Line(body) == []
  {
    if body != [] { LineToTheEnd(body[1..]); }
  }

  lemma {:induction false} EndIsStripped(comment: Option<seq<char>>)
    requires comment.Some? ==> '\n' !in comment.value
    ensures Code(EndText(comment)) == []
  {
    if comment.Some? {
      LineToTheEnd(comment.value);
      assert ("//" + comment.value)[2..] == comment.value;
    }
  }

  // ---------------------------------------------------------------- plain documents

  predicate NoComments(doc: seq<Piece>) {
    forall i :: 0 <= i < |doc| ==> !doc[i].LineComment? && !doc[i].BlockComment?
  }

  lemma {:induction false} BreaksAreWhite(b: seq<char>, doc: seq<Piece>)
    requires Decorated(doc) && NoComments(doc)
    ensures Decorated(Breaks(b) + doc) && NoComments(Breaks(b) + doc)
    ensures NextPiece(Breaks(b) + doc) == NextPiece(doc) && Tokens(Breaks(b) + doc) == Tokens(doc)
  {
    if b == [] {
      assert Breaks(b) + doc == doc;
    } else {
      BreaksAreWhite(b[1..], doc);
      if b[0] == '\n' {
        assert (Breaks(b) + doc)[1..] == Breaks(b[1..]) + doc;
      } else {
        assert Breaks(b) == Breaks(b[1..]);
      }
    }
  }

  lemma {:induction false} PlainIsDecorated(doc: seq<Piece>)
    requires Decorated(doc)
    ensures Decorated(Plain(doc)) && NoComments(Plain(doc))
    ensures NextPiece(Plain(doc)) == NextPiece(doc) && Tokens(Plain(doc)) == Tokens(doc)
  {
    if doc != [] {
      PlainIsDecorated(doc[1..]);
      var rest := Plain(doc[1..]);
      if doc[0].BlockComment? {
        BreaksAreWhite(doc[0].body, rest);
      } else {
        assert Plain(doc)[1..] == rest;
      }
    }
  }

  function NextChar(p: Option<Piece>): Option<char> {
    if p.Some? && PieceText(p.value) != [] then Some(PieceText(p.value)[0]) else None
  }

  /** The first significant character belongs to the next token or extra comma. */
  lemma {:induction false} NextOfText(doc: seq<Piece>)
    requires Decorated(doc) && NoComments(doc)
    ensures Next(Text(doc)) == NextChar(NextPiece(doc))
  {
    if doc != [] {
      var s := Text(doc);
      if doc[0].White? {
        NextOfText(doc[1..]);
        assert s[1..] == Text(doc[1..]);
      } else {
        assert s[0] == PieceText(doc[0])[0];
        if doc[0].Tok? && doc[0].token.Bare? { assert IsBare(doc[0].token.chars[0]); }
      }
    }
  }

  function WithoutExtras(doc: seq<Piece>): seq<Piece> {
    if doc == [] then []
    else (if doc[0].Extra? then [] else [doc[0]]) + WithoutExtras(doc[1..])
  }

  lemma {:induction false} CommasPassBare(chars: seq<char>, rest: seq<char>)
    requires forall i :: 0 <= i < |chars| ==> chars[i] != '"' && chars[i] != ','
    ensures Commas(chars + rest) == chars + Commas(rest)
  {
    if chars == [] {
      assert chars + rest == rest;
    } else {
      CommasPassBare(chars[1..], rest);
      assert (chars + rest)[1..] == chars[1..] + rest;
    }
  }

  /** Stripping trailing commas removes exactly the extra ones. */
  lemma {:induction false} ExtrasAreStripped(doc: seq<Piece>)
    requires Decorated(doc) && NoComments(doc)
    ensures Commas(Text(doc)) == Text(WithoutExtras(doc))
  {
    if doc != [] {
      var p, rest, s := doc[0], Text(doc[1..]), Text(doc);
      ExtrasAreStripped(doc[1..]);
      NextOfText(doc[1..]);
      if p.Extra? {
        assert s[1..] == rest;
        assert WithoutExtras(doc) == WithoutExtras(doc[1..]);
      } else {
        KeptPiece(doc);
        assert WithoutExtras(doc)[1..] == WithoutExtras(doc[1..]);
      }
    }
  }

  lemma {:induction false} KeptPiece(doc: seq<Piece>)
    requires doc != [] && Decorated(doc) && NoComments(doc) && !doc[0].Extra?
    requires Next(Text(doc[1..])) == NextChar(NextPiece(doc[1..]))
    ensures Commas(Text(doc)) == PieceText(doc[0]) + Commas(Text(doc[1..]))
  {
    var p, rest, s := doc[0], Text(doc[1..]), Text(doc);
    if p.Tok? && p.token.Str? {
      CommasOfString(p.token.body, rest);
    } else if p == Tok(Punct(',')) {
      assert s[1..] == rest;
      var next := NextPiece(doc[1..]);
      if next.Some? { FirstCharCloses(doc[1..], next.value); }
    } else {
      CommasPassBare(PieceText(p), rest);
    }
  }

  lemma {:induction false} CommasOfString(body: seq<char>, rest: seq<char>)
    requires StringBody(body)
    ensures Commas(TokenText(Str(body)) + rest) == TokenText(Str(body)) + Commas(rest)
  {
    StringText(body, rest);
    CommasPassBody(body, rest);
    StringText(body, Commas(rest));
  }

  lemma {:induction false} FirstCharCloses(doc: seq<Piece>, p: Piece)
    requires Decorated(doc) && NextPiece(doc) == Some(p)
    ensures PieceText(p) != [] && (IsCloser(Some(PieceText(p)[0])) ==> ClosingPiece(Some(p)))
  {
    if doc[0] != p || !(p.Tok? || p.Extra?) { FirstCharCloses(doc[1..], p); }
    else if p.Tok? && p.token.Bare? { assert IsBare(p.token.chars[0]); }
  }

  // ---------------------------------------------------------------- reading it back

  lemma {:induction false} BareStops(chars: seq<char>, rest: seq<char>)
    requires forall i :: 0 <= i < |chars| ==> IsBare(chars[i])
    requires rest == [] || !IsBare(rest[0])
    ensures BareLength(chars + rest) == |chars|
  {
    if chars == [] {
      assert chars + rest == rest;
    } else {
      BareStops(chars[1..], rest);
      assert (chars + rest)[1..] == chars[1..] + rest;
    }
  }

  lemma {:induction false} PlainTextLexes(doc: seq<Piece>)
    requires Decorated(doc) && NoComments(doc)
    ensures Lex(Text(WithoutExtras(doc))) == Some(Tokens(doc))
  {
    if doc != [] {
      PlainTextLexes(doc[1..]);
      var p, rest := doc[0], Text(WithoutExtras(doc[1..]));
      if p.Extra? {
        assert WithoutExtras(doc) == WithoutExtras(doc[1..]) && Tokens(doc) == Tokens(doc[1..]);
      } else {
        assert WithoutExtras(doc)[1..] == WithoutExtras(doc[1..]);
        LexPiece(doc, rest);
      }
    }
  }

  lemma {:induction false} LexPiece(doc: seq<Piece>, rest: seq<char>)
    requires doc != [] && Decorated(doc) && NoComments(doc) && !doc[0].Extra?
    requires rest == Text(WithoutExtras(doc[1..])) && Lex(rest) == Some(Tokens(doc[1..]))
    ensures Lex(PieceText(doc[0]) + rest) == Some(Tokens(doc))
  {
    var p := doc[0];
    match p
    case White(c) =>
      assert ([c] + rest)[1..] == rest && Tokens(doc) == Tokens(doc[1..]);
    case Tok(t) =>
      match t {
        case Punct(c) => assert ([c] + rest)[1..] == rest;
        case Str(body) => LexString(body, rest);
        case Bare(chars) =>
          FirstKept(doc[1..]);
          LexBare(chars, rest);
      }
  }

  lemma {:induction false} LexString(body: seq<char>, rest: seq<char>)
    requires StringBody(body)
    ensures Lex(TokenText(Str(body)) + rest) == Consed(Str(body), Lex(rest))
  {
    StringText(body, rest);
    LexClosed(TokenText(Str(body)) + rest, body, rest);
  }

  lemma {:induction false} LexClosed(s: seq<char>, body: seq<char>, rest: seq<char>)
    requires StringBody(body) && s == ['"'] + Closed(body, rest)
    ensures Lex(s) == Consed(Str(body), Lex(rest))
  {
    var tail := Closed(body, rest);
    StringEndsAtQuote(body, rest);
    assert s[1..] == tail;
    assert tail[..|body|] == body && tail[|body| + 1..] == rest;
    LexQuote(s, |body|);
  }

  lemma {:induction false} LexQuote(s: seq<char>, n: nat)
    requires s != [] && s[0] == '"' && StringEnd(s[1..]) == Some(n)
    ensures Lex(s) == Consed(Str(s[1..][..n]), Lex(s[1..][n + 1..]))
  {
  }

  lemma {:induction false} LexBare(chars: seq<char>, rest: seq<char>)
    requires WellFormed(Bare(chars)) && (rest == [] || !IsBare(rest[0]))
    ensures Lex(chars + rest) == Consed(Bare(chars), Lex(rest))
  {
    var s := chars + rest;
    BareStops(chars, rest);
    assert s[0] == chars[0] && IsBare(chars[0]);
    assert s[..|chars|] == chars && s[|chars|..] == rest;
  }

  lemma {:induction false} FirstKept(doc: seq<Piece>)
    requires Decorated(doc) && NoComments(doc)
    requires !(NextPiece(doc).Some? && NextPiece(doc).value.Tok? && NextPiece(doc).value.token.Bare?)
    ensures var rest := Text(WithoutExtras(doc)); rest == [] || !IsBare(rest[0])
  {
    if doc != [] {
      if doc[0].Extra? {
        FirstKept(doc[1..]);
        assert WithoutExtras(doc) == WithoutExtras(doc[1..]);
      } else {
        assert WithoutExtras(doc)[0] == doc[0];
      }
    }
  }

  /** Normalising any decorated document, ended or not by a line comment without line break, gives text that
      reads back as exactly its tokens, string contents included. */
  lemma {:induction false} NormalizationUndoesDecoration(doc: seq<Piece>, end: Option<seq<char>>)
    requires Decorated(doc) && (end.Some? ==> '\n' !in end.value)
    ensures Lex(Commas(Code(Text(doc) + EndText(end)))) == Some(Tokens(doc))
  {
    DecoratedIsWellFormed(doc);
    CommentsAreStripped(doc, EndText(end));
    EndIsStripped(end);
    assert Text(Plain(doc)) + [] == Text(Plain(doc));
    PlainIsDecorated(doc);
    ExtrasAreStripped(Plain(doc));
    PlainTextLexes(Plain(doc));
  }
}
