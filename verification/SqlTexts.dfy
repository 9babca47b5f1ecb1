/** What the splitter makes of comments, strings and statements as they are written. */
module SqlTexts {
  import opened Text
  import opened SqlLexer
  import opened SqlScript
  import opened SqlJoin

  lemma CommentThen(t: string, rest: string)
    requires ClosedLine(t) || ClosedBlock(t)
    ensures Queries(t + rest) == Queries(rest)
  {
    if ClosedLine(t) {
      FirstLine(t, rest);
    } else {
      FirstBlock(t, rest);
    }
    CommentDropped(t, rest);
  }

  lemma CommentDropped(t: string, rest: string)
    requires t != "" && FirstPiece(t + rest) == Comment(t)
    ensures Queries(t + rest) == Queries(rest)
  {
    assert (t + rest)[|t|..] == rest;
    hide FirstPiece, Trimmed;
    var ps := [Comment(t)] + Lex(rest);
    assert Lex(t + rest) == ps && ps[1..] == Lex(rest);
  }

  /** A comment from `--` or `#` to the end of its line is skipped. */
  lemma LineCommentIsSkipped(open: string, text: string, rest: string)
    requires (open == "--" || open == "#") && '\n' !in text
    ensures Queries(open + text + "\n" + rest) == Queries(rest)
  {
    var t := open + text + "\n";
    assert t[..|t| - 1] == open + text;
    assert NoNewline(open) by {
      assert open[0] == "-"[0] || open[0] == "#"[0];
    }
    assert open == "--" ==> t[..2] == "--";
    assert ClosedLine(t);
    CommentThen(t, rest);
  }

  /** A comment from `/*` to the next `*/` is skipped. */
  lemma BlockCommentIsSkipped(text: string, rest: string)
    requires text == "" || text[|text| - 1] != '*'
    requires forall k :: 0 <= k < |text| - 1 ==> !(text[k] == '*' && text[k + 1] == '/')
    ensures Queries("/*" + text + "*/" + rest) == Queries(rest)
  {
    var t := "/*" + text + "*/";
    assert t[..2] == "/*" && t[|t| - 2..] == "*/";
    assert t[2..|t| - 1] == text + "*";
    assert ClosedBlock(t);
    CommentThen(t, rest);
  }

  /** A blank in front of a script changes nothing. */
  lemma BlankIsSkipped(c: char, rest: string)
    requires c == ' ' || c == '\t' || c == '\r' || c == '\n'
    ensures Queries([c] + rest) == Queries(rest)
  {
    var s, ps := [c] + rest, Lex(rest);
    assert s[1..] == rest && FirstPiece(s) == Plain(c);
    var all := [Plain(c)] + ps;
    assert Lex(s) == all && all[1..] == ps;
    var r := Raw(ps)[0];
    assert Raw(all) == [[c] + r] + Raw(ps)[1..];
    assert ([c] + r)[1..] == r && Trim([c] + r) == Trim(r);
    TrimmedCons([c] + r, Raw(ps)[1..]);
    assert Raw(ps) == [r] + Raw(ps)[1..];
    TrimmedCons(r, Raw(ps)[1..]);
  }

  /** Empty statements are not sent. */
  lemma EmptyIsSkipped(rest: string)
    ensures Queries(";" + rest) == Queries(rest) && Queries("") == []
  {
    var s, ps := ";" + rest, Lex(rest);
    assert s[1..] == rest && FirstPiece(s) == Semicolon;
    var all := [Semicolon] + ps;
    assert Lex(s) == all && all[1..] == ps;
    assert Raw(all) == [""] + Raw(ps);
    TrimmedCons("", Raw(ps));
    assert Lex("") == [] && Raw([]) == [""];
    TrimmedCons("", []);
    assert [""] + [] == [""];
  }

  lemma CleanThen(t: string, rest: string)
    requires CleanStatement(t)
    ensures Queries(t + ";" + rest) == [t] + Queries(rest)
  {
    var it := Item("", t, "");
    assert Lex("") == [] && CleanItem(it) && !Fused(it);
    assert ItemText(it) == t;
    hide Queries, CleanItem, Fused, Kept;
    ItemQueries(it, rest);
    KeptIs(it);
  }

  /** Quoted text is one statement, semicolons, comment openers, line ends and the other kind
      of quote included. */
  lemma QuotedIsOneStatement(q: char, text: string, rest: string)
    requires q == '\'' || q == '"'
    requires forall k :: 0 <= k < |text| ==> text[k] != q && text[k] != '\\'
    ensures Queries([q] + text + [q] + ";" + rest) == [[q] + text + [q]] + Queries(rest)
  {
    PlainBody(text, q);
    QuotedThen(q, text, rest);
  }

  /** A backslash protects the character behind it, a quote or another backslash included. */
  lemma BackslashProtects(q: char, before: string, c: char, after: string, rest: string)
    requires q == '\'' || q == '"'
    requires forall k :: 0 <= k < |before| ==> before[k] != q && before[k] != '\\'
    requires forall k :: 0 <= k < |after| ==> after[k] != q && after[k] != '\\'
    ensures var t := [q] + (before + (['\\', c] + after)) + [q];
            Queries(t + ";" + rest) == [t] + Queries(rest)
  {
    PlainBody(after, q);
    ProtectedBody(before, c, after, q);
    QuotedThen(q, before + (['\\', c] + after), rest);
  }

  lemma {:induction false} PlainBody(text: string, q: char)
    requires forall k :: 0 <= k < |text| ==> text[k] != q && text[k] != '\\'
    ensures QuoteBody(text, q)
  {
    if text != "" {
      PlainBody(text[1..], q);
    }
  }

  lemma {:induction false} ProtectedBody(before: string, c: char, after: string, q: char)
    requires q != '\\' && QuoteBody(after, q)
    requires forall k :: 0 <= k < |before| ==> before[k] != q && before[k] != '\\'
    ensures QuoteBody(before + (['\\', c] + after), q)
  {
    var b := before + (['\\', c] + after);
    if before == "" {
      assert b[2..] == after && b[0] == '\\';
    } else {
      assert b[1..] == before[1..] + (['\\', c] + after);
      ProtectedBody(before[1..], c, after, q);
    }
  }

  lemma QuotedThen(q: char, body: string, rest: string)
    requires (q == '\'' || q == '"') && QuoteBody(body, q)
    ensures Queries([q] + body + [q] + ";" + rest) == [[q] + body + [q]] + Queries(rest)
  {
    var t := [q] + body + [q];
    assert t[1..|t| - 1] == body && ClosedQuote(t);
    var ps := [Quoted(t)];
    assert ps[1..] == [] && Flatten(ps) == t + "" == t;
    assert Grammatical(ps);
    LexFlatten(ps);
    assert CleanStatement(t);
    CleanThen(t, rest);
  }

  lemma {:induction false} LexPlain(t: string)
    requires forall k :: 0 <= k < |t| ==> t[k] !in "'\"#;-/"
    ensures |Lex(t)| == |t| && forall k :: 0 <= k < |t| ==> Lex(t)[k] == Plain(t[k])
  {
    if t != "" {
      PlainFirst(t);
      LexPlain(t[1..]);
    }
  }

  lemma PlainFirst(t: string)
    requires t != "" && t[0] !in "'\"#;-/"
    ensures FirstPiece(t) == Plain(t[0])
  {
    var special := "'\"#;-/";
    assert special[0] == '\'' && special[1] == '"' && special[2] == '#' && special[3] == ';';
    assert special[4] == '-' && special[5] == '/';
  }

  /** Plain statements end at their semicolons. */
  lemma SemicolonEndsStatement(t: string, rest: string)
    requires t != "" && forall k :: 0 <= k < |t| ==> t[k] !in "'\"#;-/"
    requires t[0] !in " \t\r\n" && t[|t| - 1] !in " \t\r\n"
    ensures Queries(t + ";" + rest) == [t] + Queries(rest)
  {
    LexPlain(t);
    var blanks := " \t\r\n";
    assert blanks[0] == ' ' && blanks[1] == '\t' && blanks[2] == '\r' && blanks[3] == '\n';
    assert CleanStatement(t);
    CleanThen(t, rest);
  }
}
