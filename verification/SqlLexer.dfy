/** The pieces of an SQL script: quoted strings, comments, semicolons and everything
    else. `Lex` cuts a text into them; `Grammatical` says which cuts are right. */
module SqlLexer {
  import opened Text

  datatype Piece =
    | Plain(c: char)
    | Quoted(text: string)     // with its quotes
    | Comment(text: string)    // with its delimiters
    | Semicolon

  function PieceText(p: Piece): string {
    match p
    case Plain(c) => [c]
    case Quoted(text) => text
    case Comment(text) => text
    case Semicolon => ";"
  }

  function Flatten(ps: seq<Piece>): string {
    if ps == [] then "" else PieceText(ps[0]) + Flatten(ps[1..])
  }

  predicate IsQuote(c: char) { c == '\'' || c == '"' }

  // ----- Cutting -----

  /** Length of the rest of a quoted string, closing quote included; a backslash takes
      the next character with it. Without a closing quote it is all of `s`. */
  function QuotedLength(s: string, q: char): (n: nat)
    ensures n <= |s|
  {
    if s == "" then 0
    else if s[0] == q then 1
    else if s[0] == '\\' && |s| > 1 then 2 + QuotedLength(s[2..], q)
    else 1 + QuotedLength(s[1..], q)
  }

  /** Length of the rest of a line comment, its newline included. */
  function LineLength(s: string): (n: nat)
    ensures n <= |s|
  {
    if s == "" then 0 else if s[0] == '\n' then 1 else 1 + LineLength(s[1..])
  }

  /** Length of the rest of a block comment, its closing included. */
  function BlockLength(s: string): (n: nat)
    ensures n <= |s|
  {
    if |s| <= 1 then |s|
    else if s[0] == '*' && s[1] == '/' then 2
    else 1 + BlockLength(s[1..])
  }

  function FirstPiece(s: string): (p: Piece)
    requires s != ""
    ensures PieceText(p) != "" && PieceText(p) <= s
  {
    if IsQuote(s[0]) then Quoted(s[..1 + QuotedLength(s[1..], s[0])])
    else if s[0] == '-' && |s| > 1 && s[1] == '-' then Comment(s[..2 + LineLength(s[2..])])
    else if s[0] == '#' then Comment(s[..1 + LineLength(s[1..])])
    else if s[0] == '/' && |s| > 1 && s[1] == '*' then Comment(s[..2 + BlockLength(s[2..])])
    else if s[0] == ';' then Semicolon
    else Plain(s[0])
  }

  function Lex(s: string): seq<Piece> {
    if s == "" then []
    else
      var p := FirstPiece(s);
      [p] + Lex(s[|PieceText(p)|..])
  }

  /** No character is lost or moved. */
  lemma {:induction false} FlattenLex(s: string)
    ensures Flatten(Lex(s)) == s
  {
    if s != "" {
      var p := FirstPiece(s);
      FlattenLex(s[|PieceText(p)|..]);
      assert Lex(s)[1..] == Lex(s[|PieceText(p)|..]);
    }
  }

  // ----- The grammar -----

  /** Quoted characters: anything but the quote and the backslash, or a backslash and
      any character. */
  predicate QuoteBody(b: string, q: char) {
    b == ""
    || (b[0] == '\\' && |b| > 1 && QuoteBody(b[2..], q))
    || (b[0] != '\\' && b[0] != q && QuoteBody(b[1..], q))
  }

  predicate ClosedQuote(t: string) {
    |t| >= 2 && IsQuote(t[0]) && t[|t| - 1] == t[0] && QuoteBody(t[1..|t| - 1], t[0])
  }

  /** A quoted string that the end of the script cuts off, possibly after a backslash. */
  predicate OpenQuote(t: string) {
    |t| >= 1 && IsQuote(t[0])
    && (QuoteBody(t[1..], t[0])
        || (|t| >= 2 && t[|t| - 1] == '\\' && QuoteBody(t[1..|t| - 1], t[0])))
  }

  predicate LineStart(t: string) { (|t| >= 2 && t[..2] == "--") || (|t| >= 1 && t[0] == '#') }

  predicate ClosedLine(t: string) { LineStart(t) && t[|t| - 1] == '\n' && NoNewline(t[..|t| - 1]) }

  predicate OpenLine(t: string) { LineStart(t) && NoNewline(t) }

  predicate NoBlockEnd(s: string) { forall k :: 0 <= k < |s| - 1 ==> !(s[k] == '*' && s[k + 1] == '/') }

  predicate ClosedBlock(t: string) {
    |t| >= 4 && t[..2] == "/*" && t[|t| - 2..] == "*/" && NoBlockEnd(t[2..|t| - 1])
  }

  predicate OpenBlock(t: string) { |t| >= 2 && t[..2] == "/*" && NoBlockEnd(t[2..]) }

  /** Two characters that start a comment together. */
  predicate Opens(x: char, y: char) { (x == '-' && y == '-') || (x == '/' && y == '*') }

  predicate PlainBefore(c: char, rest: string) {
    !IsQuote(c) && c != '#' && c != ';' && (rest == "" || !Opens(c, rest[0]))
  }

  predicate Closed(p: Piece) {
    match p
    case Plain(_) => true
    case Quoted(t) => ClosedQuote(t)
    case Comment(t) => ClosedLine(t) || ClosedBlock(t)
    case Semicolon => true
  }

  predicate Open(p: Piece) {
    match p
    case Plain(_) => false
    case Quoted(t) => OpenQuote(t)
    case Comment(t) => OpenLine(t) || OpenBlock(t)
    case Semicolon => false
  }

  /** Every piece is well formed, only the last one may be cut off by the end of the
      script, and no plain character opens a string, a comment or a statement end. */
  predicate Grammatical(ps: seq<Piece>) {
    ps == []
    || (&& (Closed(ps[0]) || (Open(ps[0]) && |ps| == 1))
        && (ps[0].Plain? ==> PlainBefore(ps[0].c, Flatten(ps[1..])))
        && Grammatical(ps[1..]))
  }

  // ----- The cut is the only grammatical one -----

  lemma {:induction false} QuotedLengthClosed(b: string, q: char, rest: string)
    requires QuoteBody(b, q) && q != '\\'
    ensures QuotedLength(b + [q] + rest, q) == |b| + 1
  {
    var s := b + [q] + rest;
    if b == "" {
      assert s[0] == q;
    } else if b[0] == '\\' {
      assert s[2..] == b[2..] + [q] + rest;
      QuotedLengthClosed(b[2..], q, rest);
    } else {
      assert s[1..] == b[1..] + [q] + rest;
      QuotedLengthClosed(b[1..], q, rest);
    }
  }

  lemma {:induction false} QuotedLengthOpen(b: string, q: char)
    requires QuoteBody(b, q) || (b != "" && b[|b| - 1] == '\\' && QuoteBody(b[..|b| - 1], q))
    requires q != '\\'
    ensures QuotedLength(b, q) == |b|
  {
    if b != "" {
      if b[0] == '\\' && |b| > 1 {
        if !QuoteBody(b, q) {
          assert |b| > 2;
          assert b[..|b| - 1][2..] == b[2..][..|b| - 3];
        }
        QuotedLengthOpen(b[2..], q);
      } else if b[0] != '\\' {
        if !QuoteBody(b, q) {
          assert b[..|b| - 1][1..] == b[1..][..|b| - 2];
        }
        QuotedLengthOpen(b[1..], q);
      }
    }
  }

  lemma {:induction false} LineLengthIs(b: string, rest: string)
    requires NoNewline(b)
    ensures LineLength(b + "\n" + rest) == |b| + 1
    ensures LineLength(b) == |b|
  {
    if b != "" {
      assert (b + "\n" + rest)[1..] == b[1..] + "\n" + rest;
      LineLengthIs(b[1..], rest);
    }
  }

  lemma {:induction false} BlockLengthClosed(b: string, rest: string)
    requires NoBlockEnd(b + "*")
    ensures BlockLength(b + "*/" + rest) == |b| + 2
  {
    var s := b + "*/" + rest;
    if b != "" {
      assert s[1..] == b[1..] + "*/" + rest;
      assert b[1..] + "*" == (b + "*")[1..];
      var t := b + "*";
      assert t[0] == s[0] && t[1] == s[1];
      assert !(t[0] == '*' && t[0 + 1] == '/');
      BlockLengthClosed(b[1..], rest);
    }
  }

  lemma {:induction false} BlockLengthOpen(b: string)
    requires NoBlockEnd(b)
    ensures BlockLength(b) == |b|
  {
    if |b| > 1 {
      assert !(b[0] == '*' && b[0 + 1] == '/');
      BlockLengthOpen(b[1..]);
    }
  }

  lemma FirstQuoted(t: string, rest: string)
    requires ClosedQuote(t) || (OpenQuote(t) && rest == "")
    ensures FirstPiece(t + rest) == Quoted(t)
  {
    var s, q := t + rest, t[0];
    if ClosedQuote(t) {
      var b := t[1..|t| - 1];
      QuotedLengthClosed(b, q, rest);
      assert s[1..] == b + [q] + rest;
    } else {
      if !QuoteBody(t[1..], q) {
        assert t[1..][..|t| - 2] == t[1..|t| - 1];
      }
      QuotedLengthOpen(t[1..], q);
      assert s == t;
    }
  }

  lemma FirstLine(t: string, rest: string)
    requires ClosedLine(t) || (OpenLine(t) && rest == "")
    ensures FirstPiece(t + rest) == Comment(t)
  {
    hide LineLength, QuotedLength, BlockLength;
    var s := t + rest;
    var k := if t[0] == '#' then 1 else 2;
    assert k == 2 ==> t[..2][0] == '-' && t[..2][1] == '-';
    if ClosedLine(t) {
      var b := t[k..|t| - 1];
      assert t == t[..k] + b + "\n";
      LineLengthIs(b, rest);
      assert s[k..] == b + "\n" + rest;
      assert s[..k + LineLength(s[k..])] == t;
    } else {
      LineLengthIs(t[k..], "");
      assert s == t;
    }
  }

  lemma FirstBlock(t: string, rest: string)
    requires ClosedBlock(t) || (OpenBlock(t) && rest == "")
    ensures FirstPiece(t + rest) == Comment(t)
  {
    var s := t + rest;
    assert t[..2][0] == '/' && t[..2][1] == '*';
    if ClosedBlock(t) {
      var b := t[2..|t| - 2];
      assert t == "/*" + b + "*/";
      assert t[2..|t| - 1] == b + "*";
      BlockLengthClosed(b, rest);
      assert s[2..] == b + "*/" + rest;
    } else {
      BlockLengthOpen(t[2..]);
      assert s == t;
    }
  }

  lemma FirstIs(p: Piece, rest: string)
    requires Closed(p) || (Open(p) && rest == "")
    requires p.Plain? ==> PlainBefore(p.c, rest)
    ensures PieceText(p) != "" && FirstPiece(PieceText(p) + rest) == p
  {
    match p
    case Plain(c) =>
    case Quoted(t) => FirstQuoted(t, rest);
    case Comment(t) =>
      if ClosedLine(t) || (rest == "" && OpenLine(t)) {
        FirstLine(t, rest);
      } else {
        FirstBlock(t, rest);
      }
    case Semicolon =>
  }

  /** Whatever is grammatical is what the lexer finds. */
  lemma {:induction false} LexFlatten(ps: seq<Piece>)
    requires Grammatical(ps)
    ensures Lex(Flatten(ps)) == ps
  {
    if ps != [] {
      var rest := Flatten(ps[1..]);
      FirstIs(ps[0], rest);
      LexFlatten(ps[1..]);
      assert Flatten(ps)[|PieceText(ps[0])|..] == rest;
    }
  }

  // ----- The cut is grammatical -----

  lemma {:induction false} QuotedLengthCuts(s: string, q: char)
    requires q != '\\'
    ensures var b := s[..QuotedLength(s, q)];
            || (b != "" && b[|b| - 1] == q && QuoteBody(b[..|b| - 1], q))
            || (b == s && (QuoteBody(b, q) || (b != "" && b[|b| - 1] == '\\' && QuoteBody(b[..|b| - 1], q))))
  {
    var b := s[..QuotedLength(s, q)];
    if s == "" || s[0] == q {
    } else {
      var k := if s[0] == '\\' && |s| > 1 then 2 else 1;
      QuotedLengthCuts(s[k..], q);
      var c := s[k..][..QuotedLength(s[k..], q)];
      assert b == s[..k] + c;
      if c != "" {
        assert b[k..] == c && b[..|b| - 1][k..] == c[..|c| - 1];
      }
    }
  }

  lemma {:induction false} LineLengthCuts(s: string)
    ensures var b := s[..LineLength(s)];
            if '\n' in s then b != "" && b[|b| - 1] == '\n' && NoNewline(b[..|b| - 1]) else b == s
  {
    if s != "" && s[0] != '\n' {
      LineLengthCuts(s[1..]);
      var b, c := s[..LineLength(s)], s[1..][..LineLength(s[1..])];
      assert b == [s[0]] + c;
      assert s == [s[0]] + s[1..];
      if c != "" {
        assert b[..|b| - 1] == [s[0]] + c[..|c| - 1];
      }
    }
  }

  /** A text up to and including the first end of a block comment. */
  predicate ToBlockEnd(b: string) { |b| >= 2 && b[|b| - 2..] == "*/" && NoBlockEnd(b[..|b| - 1]) }

  lemma {:induction false} BlockLengthCuts(s: string)
    ensures var b := s[..BlockLength(s)]; ToBlockEnd(b) || (b == s && NoBlockEnd(b))
  {
    if |s| <= 1 {
    } else if s[0] == '*' && s[1] == '/' {
      assert s[..2][0..] == "*/";
    } else {
      BlockLengthCuts(s[1..]);
      var c := s[1..][..BlockLength(s[1..])];
      assert s[..BlockLength(s)] == [s[0]] + c;
      hide BlockLength, NoBlockEnd;
      if ToBlockEnd(c) {
        ToBlockEndCons(s[0], c);
      } else {
        NoBlockEndCons(s[0], c);
      }
    }
  }

  lemma ToBlockEndCons(x: char, c: string)
    requires ToBlockEnd(c) && !(x == '*' && c[0] == '/')
    ensures ToBlockEnd([x] + c)
  {
    var b := [x] + c;
    assert b[|b| - 2..] == c[|c| - 2..];
    assert b[..|b| - 1] == [x] + c[..|c| - 1];
    hide NoBlockEnd;
    NoBlockEndCons(x, c[..|c| - 1]);
  }

  lemma NoBlockEndCons(x: char, s: string)
    requires NoBlockEnd(s) && !(x == '*' && s != "" && s[0] == '/')
    ensures NoBlockEnd([x] + s)
  {
    var t := [x] + s;
    forall k | 0 <= k < |t| - 1 ensures !(t[k] == '*' && t[k + 1] == '/') {
      if k > 0 {
        var j := k - 1;
        assert !(s[j] == '*' && s[j + 1] == '/');
      }
    }
  }

  lemma FirstQuotedCuts(s: string)
    requires s != "" && IsQuote(s[0])
    ensures var t := PieceText(FirstPiece(s)); ClosedQuote(t) || (OpenQuote(t) && t == s)
  {
    var t := PieceText(FirstPiece(s));
    var b := s[1..][..QuotedLength(s[1..], s[0])];
    QuotedLengthCuts(s[1..], s[0]);
    assert t == [s[0]] + b;
    assert t[1..] == b;
    if b != "" {
      assert t[1..|t| - 1] == b[..|b| - 1];
    }
    if b == s[1..] {
      assert t == s;
    }
  }

  lemma FirstLineCuts(s: string, k: nat)
    requires (k == 1 && s != "" && s[0] == '#') || (k == 2 && |s| > 1 && s[0] == '-' && s[1] == '-')
    ensures var t := s[..k + LineLength(s[k..])]; ClosedLine(t) || (OpenLine(t) && t == s)
  {
    var t := s[..k + LineLength(s[k..])];
    var b := s[k..][..LineLength(s[k..])];
    LineLengthCuts(s[k..]);
    assert t == s[..k] + b;
    assert LineStart(t) && NoNewline(s[..k]);
    if '\n' in s[k..] {
      assert t[..|t| - 1] == s[..k] + b[..|b| - 1];
    } else {
      assert t == s && s == s[..k] + s[k..];
    }
  }

  lemma FirstBlockCuts(s: string)
    requires |s| > 1 && s[0] == '/' && s[1] == '*'
    ensures var t := s[..2 + BlockLength(s[2..])]; ClosedBlock(t) || (OpenBlock(t) && t == s)
  {
    var t := s[..2 + BlockLength(s[2..])];
    var b := s[2..][..BlockLength(s[2..])];
    BlockLengthCuts(s[2..]);
    assert t == s[..2] + b && s[..2] == "/*";
    assert t[2..] == b;
    if |b| >= 2 && b[|b| - 2..] == "*/" && NoBlockEnd(b[..|b| - 1]) {
      assert t[|t| - 2..] == b[|b| - 2..];
      assert t[2..|t| - 1] == b[..|b| - 1];
    } else {
      assert t == s;
    }
  }

  lemma FirstPieceIsRight(s: string)
    requires s != ""
    ensures var p := FirstPiece(s);
            && (Closed(p) || (Open(p) && PieceText(p) == s))
            && (p.Plain? ==> PlainBefore(p.c, s[1..]))
  {
    hide QuotedLength, LineLength, BlockLength, ClosedQuote, OpenQuote, ClosedLine, OpenLine, ClosedBlock, OpenBlock;
    if IsQuote(s[0]) {
      FirstQuotedCuts(s);
    } else if s[0] == '#' {
      FirstLineCuts(s, 1);
    } else if |s| > 1 && s[0] == '-' && s[1] == '-' {
      FirstLineCuts(s, 2);
    } else if |s| > 1 && s[0] == '/' && s[1] == '*' {
      FirstBlockCuts(s);
    }
  }

  lemma {:induction false} LexGrammatical(s: string)
    ensures Grammatical(Lex(s))
  {
    if s != "" {
      var p := FirstPiece(s);
      var rest := s[|PieceText(p)|..];
      FirstPieceIsRight(s);
      LexGrammatical(rest);
      FlattenLex(rest);
      assert Lex(s)[1..] == Lex(rest);
    }
  }

  /** The lexer's result is the one grammatical cut of the text, whatever the text:
      strings and comments that are never closed included. */
  lemma {:induction false} LexIsTheGrammar(s: string, ps: seq<Piece>)
    ensures ps == Lex(s) <==> Grammatical(ps) && Flatten(ps) == s
  {
    FlattenLex(s);
    LexGrammatical(s);
    if Grammatical(ps) {
      LexFlatten(ps);
    }
  }

  // ----- Cutting a text that was put together -----

  lemma {:induction false} FlattenConcat(a: seq<Piece>, b: seq<Piece>)
    ensures Flatten(a + b) == Flatten(a) + Flatten(b)
  {
    if a == [] {
      assert a + b == b;
    } else {
      assert (a + b)[1..] == a[1..] + b;
      FlattenConcat(a[1..], b);
    }
  }

  predicate AllClosed(ps: seq<Piece>) { forall p <- ps :: Closed(p) }

  /** `ps` does not end in a character that opens a comment with the one that follows. */
  predicate Separate(ps: seq<Piece>, rest: string) {
    ps == [] || rest == "" || !ps[|ps| - 1].Plain? || !Opens(ps[|ps| - 1].c, rest[0])
  }

  lemma {:induction false} GrammaticalConcat(a: seq<Piece>, b: seq<Piece>)
    requires Grammatical(a) && AllClosed(a) && Grammatical(b) && Separate(a, Flatten(b))
    ensures Grammatical(a + b)
  {
    if a == [] {
      assert a + b == b;
    } else {
      assert (a + b)[1..] == a[1..] + b;
      GrammaticalConcat(a[1..], b);
      FlattenConcat(a[1..], b);
      assert a[0] in a;
      if a[1..] != [] && a[0].Plain? {
        FirstTextNonEmpty(a[1..]);
      }
    }
  }

  lemma FirstTextNonEmpty(ps: seq<Piece>)
    requires Grammatical(ps) && ps != []
    ensures Flatten(ps) != ""
  {
    FirstIs(ps[0], if |ps| == 1 then "" else Flatten(ps[1..]));
  }

  lemma LexConcat(s: string, t: string)
    requires AllClosed(Lex(s)) && Separate(Lex(s), t)
    ensures Lex(s + t) == Lex(s) + Lex(t)
  {
    LexGrammatical(s);
    LexGrammatical(t);
    FlattenLex(s);
    FlattenLex(t);
    GrammaticalConcat(Lex(s), Lex(t));
    FlattenConcat(Lex(s), Lex(t));
    LexFlatten(Lex(s) + Lex(t));
  }
}
