/** Running an SQL script: the splitter loop, and what it means to split a script. */
module SqlScript {
  import opened SqlLexer

  // ----- Trimming -----

  predicate IsBlank(c: char) { c == ' ' || c == '\t' || c == '\r' || c == '\n' }

  predicate AllBlank(s: string) { forall k :: 0 <= k < |s| ==> IsBlank(s[k]) }

  function TrimLeft(s: string): string {
    if s != "" && IsBlank(s[0]) then TrimLeft(s[1..]) else s
  }

  function TrimRight(s: string): string {
    if s != "" && IsBlank(s[|s| - 1]) then TrimRight(s[..|s| - 1]) else s
  }

  function Trim(s: string): string { TrimRight(TrimLeft(s)) }

  /** Neither end is blank. */
  predicate Tight(s: string) { s == "" || (!IsBlank(s[0]) && !IsBlank(s[|s| - 1])) }

  lemma {:induction false} TrimLeftCuts(s: string) returns (w: string)
    ensures AllBlank(w) && s == w + TrimLeft(s)
    ensures TrimLeft(s) == "" || !IsBlank(TrimLeft(s)[0])
  {
    if s != "" && IsBlank(s[0]) {
      var v := TrimLeftCuts(s[1..]);
      w := [s[0]] + v;
      assert s == [s[0]] + s[1..];
      assert w + TrimLeft(s) == [s[0]] + (v + TrimLeft(s[1..]));
      hide TrimLeft, IsBlank;
    } else {
      w := "";
    }
  }

  lemma {:induction false} TrimRightCuts(s: string) returns (w: string)
    ensures AllBlank(w) && s == TrimRight(s) + w
    ensures TrimRight(s) == "" || !IsBlank(TrimRight(s)[|TrimRight(s)| - 1])
  {
    if s != "" && IsBlank(s[|s| - 1]) {
      var v := TrimRightCuts(s[..|s| - 1]);
      w := v + [s[|s| - 1]];
    } else {
      w := "";
    }
  }

  lemma {:induction false} TrimLeftBlanks(w: string, s: string)
    requires AllBlank(w) && (s == "" || !IsBlank(s[0]))
    ensures TrimLeft(w + s) == s
  {
    if w == "" {
      assert w + s == s;
    } else {
      assert (w + s)[1..] == w[1..] + s;
      TrimLeftBlanks(w[1..], s);
    }
  }

  lemma {:induction false} TrimRightBlanks(s: string, w: string)
    requires AllBlank(w) && (s == "" || !IsBlank(s[|s| - 1]))
    ensures TrimRight(s + w) == s
  {
    if w == "" {
      assert s + w == s;
    } else {
      assert (s + w)[..|s + w| - 1] == s + w[..|w| - 1];
      TrimRightBlanks(s, w[..|w| - 1]);
    }
  }

  /** Trimming takes away blanks at both ends and nothing else: `Trim(s) == t` says
      exactly that `s` is `t`, tight, between blanks. */
  lemma TrimIs(s: string, t: string)
    ensures Trim(s) == t <==> Tight(t) && exists v, w :: AllBlank(v) && AllBlank(w) && s == v + t + w
  {
    var v := TrimLeftCuts(s);
    var w := TrimRightCuts(TrimLeft(s));
    if Trim(s) == t {
      assert s == v + t + w;
    }
    if Tight(t) && exists v, w :: AllBlank(v) && AllBlank(w) && s == v + t + w {
      var v, w :| AllBlank(v) && AllBlank(w) && s == v + t + w;
      TrimPadded(v, t, w);
    }
  }

  lemma TrimPadded(v: string, t: string, w: string)
    requires AllBlank(v) && AllBlank(w) && Tight(t)
    ensures Trim(v + t + w) == t
  {
    if t == "" {
      assert AllBlank(v + w) && v + t + w == (v + w) + "";
      TrimLeftBlanks(v + w, "");
    } else {
      assert v + t + w == v + (t + w);
      TrimLeftBlanks(v, t + w);
      TrimRightBlanks(t, w);
    }
  }

  // ----- What a script says -----

  /** The text between the statement ends, comments deleted. */
  function Raw(ps: seq<Piece>): (rs: seq<string>)
    ensures rs != []
  {
    if ps == [] then [""]
    else
      var rest := Raw(ps[1..]);
      match ps[0]
      case Semicolon => [""] + rest
      case Comment(_) => rest
      case _ => [PieceText(ps[0]) + rest[0]] + rest[1..]
  }

  /** The non-empty statements, trimmed. */
  function Trimmed(rs: seq<string>): seq<string> {
    if rs == [] then []
    else (if Trim(rs[0]) == "" then [] else [Trim(rs[0])]) + Trimmed(rs[1..])
  }

  /** The queries of a script. */
  function Queries(script: string): seq<string> { Trimmed(Raw(Lex(script))) }

  /** The script with its comments deleted. */
  function Visible(ps: seq<Piece>): string {
    if ps == [] then "" else (if ps[0].Comment? then "" else PieceText(ps[0])) + Visible(ps[1..])
  }

  function JoinSemicolons(rs: seq<string>): string
    requires rs != []
  {
    if |rs| == 1 then rs[0] else rs[0] + ";" + JoinSemicolons(rs[1..])
  }

  /** Nothing but comments disappears: the raw statements with their semicolons are the
      script with its comments deleted. */
  lemma {:induction false} RawIsVisible(ps: seq<Piece>)
    ensures JoinSemicolons(Raw(ps)) == Visible(ps)
  {
    if ps != [] {
      RawIsVisible(ps[1..]);
      var rest := Raw(ps[1..]);
      match ps[0]
      case Semicolon => assert ([""] + rest)[1..] == rest;
      case Comment(_) =>
      case _ =>
        var rs := [PieceText(ps[0]) + rest[0]] + rest[1..];
        assert rs[1..] == rest[1..];
        if |rest| > 1 {
          assert JoinSemicolons(rs) == PieceText(ps[0]) + rest[0] + ";" + JoinSemicolons(rest[1..]);
          assert JoinSemicolons(rest) == rest[0] + ";" + JoinSemicolons(rest[1..]);
        }
    }
  }

  /** A quoted string is part of one statement, whole, whatever is inside it. */
  lemma {:induction false} QuotedStaysWhole(ps: seq<Piece>, k: nat) returns (i: nat, before: string, after: string)
    requires k < |ps| && ps[k].Quoted?
    ensures i < |Raw(ps)| && Raw(ps)[i] == before + ps[k].text + after
  {
    var rest := Raw(ps[1..]);
    if k == 0 {
      i, before, after := 0, "", rest[0];
    } else {
      i, before, after := QuotedStaysWhole(ps[1..], k - 1);
      if ps[0].Semicolon? {
        i := i + 1;
      } else if !ps[0].Comment? && i == 0 {
        before := PieceText(ps[0]) + before;
      }
    }
  }

  // ----- The database -----

  /** A connection that answers by itself: whether a query succeeds depends on the
      queries before it. */
  class Connection {
    const accepts: (seq<string>, string) -> bool
    var sent: seq<string>

    constructor (accepts: (seq<string>, string) -> bool)
      ensures this.accepts == accepts && sent == []
    {
      this.accepts := accepts;
      sent := [];
    }

    method Query(q: string) returns (ok: bool)
      modifies this`sent
      ensures sent == old(sent) + [q] && ok == accepts(old(sent), q)
    {
      ok := accepts(sent, q);
      sent := sent + [q];
    }
  }

  /** How many of `qs` are sent when the first failure stops the script. */
  function SentCount(accepts: (seq<string>, string) -> bool, before: seq<string>, qs: seq<string>): (n: nat)
    ensures n <= |qs|
    decreases qs
  {
    if qs == [] then 0
    else if !accepts(before, qs[0]) then 1
    else 1 + SentCount(accepts, before + [qs[0]], qs[1..])
  }

  /** Every query is accepted after those before it. */
  predicate AllAccepted(accepts: (seq<string>, string) -> bool, before: seq<string>, qs: seq<string>)
    decreases qs
  {
    qs == [] || (accepts(before, qs[0]) && AllAccepted(accepts, before + [qs[0]], qs[1..]))
  }

  /** The prefix sent is the whole list exactly when all are accepted; otherwise it ends
      at the first failing statement. */
  lemma {:induction false} SentCountIs(accepts: (seq<string>, string) -> bool, before: seq<string>, qs: seq<string>)
    ensures var n := SentCount(accepts, before, qs);
            if AllAccepted(accepts, before, qs) then n == |qs|
            else n > 0 && AllAccepted(accepts, before, qs[..n - 1]) && !AllAccepted(accepts, before, qs[..n])
    decreases qs
  {
    if qs != [] && accepts(before, qs[0]) {
      SentCountIs(accepts, before + [qs[0]], qs[1..]);
      var n := SentCount(accepts, before, qs);
      if n > 1 {
        assert qs[..n - 1][1..] == qs[1..][..n - 2];
        assert qs[..n][1..] == qs[1..][..n - 1];
      }
    }
  }

  // ----- The splitter -----

  /** What a script still says when `statement` was read of its first statement. */
  function Rest(statement: string, script: string): seq<string> {
    var rs := Raw(Lex(script));
    Trimmed([statement + rs[0]] + rs[1..])
  }

  /** The same inside a string that opened with `quote`. */
  function RestInString(statement: string, quote: char, script: string): seq<string> {
    var n := QuotedLength(script, quote);
    Rest(statement + script[..n], script[n..])
  }

  /** What is still to be scanned; the index may have jumped past the end. */
  function From(content: string, i: nat): string {
    if i <= |content| then content[i..] else ""
  }

  /** What is sent in the end, and the result, when `qs` are still to be sent. */
  function Outcome(accepts: (seq<string>, string) -> bool, before: seq<string>, qs: seq<string>): (seq<string>, bool) {
    (before + qs[..SentCount(accepts, before, qs)], AllAccepted(accepts, before, qs))
  }

  lemma OutcomeOfNothing(accepts: (seq<string>, string) -> bool, before: seq<string>)
    ensures Outcome(accepts, before, []) == (before, true)
  {
    assert before + [] == before;
  }

  lemma OutcomeSteps(accepts: (seq<string>, string) -> bool, before: seq<string>, q: string, qs: seq<string>)
    ensures Outcome(accepts, before, [q] + qs)
            == if accepts(before, q) then Outcome(accepts, before + [q], qs) else (before + [q], false)
  {
    var all := [q] + qs;
    assert all[1..] == qs;
    if accepts(before, q) {
      var n := SentCount(accepts, before + [q], qs);
      assert all[..1 + n] == [q] + qs[..n];
      assert before + ([q] + qs[..n]) == before + [q] + qs[..n];
    } else {
      assert all[..1] == [q];
    }
  }

  lemma RestSkips(statement: string, script: string)
    requires script != "" && FirstPiece(script).Comment?
    ensures Rest(statement, script) == Rest(statement, script[|PieceText(FirstPiece(script))|..])
  {
    assert Lex(script)[1..] == Lex(script[|PieceText(FirstPiece(script))|..]);
  }

  lemma RestTakes(statement: string, script: string)
    requires script != "" && (FirstPiece(script).Plain? || FirstPiece(script).Quoted?)
    ensures var t := PieceText(FirstPiece(script));
            Rest(statement, script) == Rest(statement + t, script[|t|..])
  {
    var p := FirstPiece(script);
    var t := PieceText(p);
    var tail := Lex(script[|t|..]);
    assert Lex(script) == [p] + tail;
    hide Lex, FirstPiece, PieceText, Trimmed;
    assert ([p] + tail)[1..] == tail;
    var rs := Raw(tail);
    assert Raw([p] + tail) == [t + rs[0]] + rs[1..] && ([t + rs[0]] + rs[1..])[1..] == rs[1..];
    assert statement + (t + rs[0]) == statement + t + rs[0];
  }

  lemma TrimmedCons(r: string, rs: seq<string>)
    ensures Trimmed([r] + rs) == (if Trim(r) == "" then [] else [Trim(r)]) + Trimmed(rs)
  {
    assert ([r] + rs)[1..] == rs;
  }

  lemma LexEnds(script: string)
    requires script != "" && script[0] == ';'
    ensures Lex(script) == [Semicolon] + Lex(script[1..])
  {
    hide QuotedLength, LineLength, BlockLength;
    assert FirstPiece(script) == Semicolon;
  }

  lemma RawEnds(ps: seq<Piece>)
    ensures Raw([Semicolon] + ps) == [""] + Raw(ps)
  {
    assert ([Semicolon] + ps)[1..] == ps;
  }

  lemma RestEnds(statement: string, script: string)
    requires script != "" && script[0] == ';'
    ensures Rest(statement, script)
            == (if Trim(statement) == "" then [] else [Trim(statement)]) + Rest("", script[1..])
  {
    var rs := Raw(Lex(script[1..]));
    LexEnds(script);
    RawEnds(Lex(script[1..]));
    hide Lex, Raw, Trim, Trimmed;
    assert ([""] + rs)[0] == "" && ([""] + rs)[1..] == rs;
    assert statement + "" == statement && "" + rs[0] == rs[0];
    assert [rs[0]] + rs[1..] == rs;
    TrimmedCons(statement, rs);
  }

  lemma RestAtEnd(statement: string)
    ensures Rest(statement, "") == if Trim(statement) == "" then [] else [Trim(statement)]
  {
    var rs := Raw(Lex(""));
    assert rs == [""] && statement + "" == statement;
    assert [statement + rs[0]] + rs[1..] == [statement];
    assert [statement][1..] == [];
    assert Trimmed([statement]) == (if Trim(statement) == "" then [] else [Trim(statement)]) + Trimmed([]);
  }

  lemma RestAtStart(script: string)
    ensures Rest("", script) == Queries(script)
  {
    var rs := Raw(Lex(script));
    assert "" + rs[0] == rs[0];
    assert ["" + rs[0]] + rs[1..] == rs;
  }

  /** Opening a string: the quoted piece is taken character by character. */
  lemma StringOpens(statement: string, script: string)
    requires script != "" && IsQuote(script[0])
    ensures Rest(statement, script) == RestInString(statement + [script[0]], script[0], script[1..])
  {
    hide Lex, Raw, Trimmed, QuotedLength;
    var n := QuotedLength(script[1..], script[0]);
    var t := PieceText(FirstPiece(script));
    assert t == [script[0]] + script[1..][..n];
    RestTakes(statement, script);
    assert statement + t == statement + [script[0]] + script[1..][..n];
    assert script[|t|..] == script[1..][n..];
  }

  lemma StringGoesOn(statement: string, quote: char, script: string, k: nat)
    requires script != "" && script[0] != quote
    requires k == if script[0] == '\\' && |script| > 1 then 2 else 1
    ensures RestInString(statement, quote, script) == RestInString(statement + script[..k], quote, script[k..])
  {
    var n := QuotedLength(script[k..], quote);
    assert script[..k + n] == script[..k] + script[k..][..n];
    assert statement + (script[..k] + script[k..][..n]) == statement + script[..k] + script[k..][..n];
    assert script[k + n..] == script[k..][n..];
  }

  lemma StringCloses(statement: string, quote: char, script: string)
    requires script != "" && script[0] == quote
    ensures RestInString(statement, quote, script) == Rest(statement + [quote], script[1..])
  {
    assert script[..1] == [quote];
  }

  lemma StringAtEnd(statement: string, quote: char)
    ensures RestInString(statement, quote, "") == Rest(statement, "")
  {
    assert statement + "" == statement;
  }

  /** The end of the line comment at `start`: its newline, or the end of the script. */
  method LineEnd(content: string, start: nat) returns (i: nat)
    requires start <= |content|
    ensures From(content, i + 1) == content[start..][LineLength(content[start..])..]
    ensures start <= i <= |content|
  {
    i := start;
    while i < |content| && content[i] != '\n'
      invariant start <= i <= |content|
      invariant LineLength(content[start..]) == i - start + LineLength(content[i..])
    {
      assert content[i..][1..] == content[i + 1..];
      i := i + 1;
    }
    if i < |content| {
      assert content[start..][i + 1 - start..] == content[i + 1..];
    }
  }

  /** The last character of the block comment whose text begins at `start`. */
  method BlockEnd(content: string, start: nat) returns (i: nat)
    requires start <= |content|
    ensures From(content, i + 1) == content[start..][BlockLength(content[start..])..]
    ensures start <= i <= |content| + 1
  {
    i := start;
    while i + 1 < |content| && !(content[i] == '*' && content[i + 1] == '/')
      invariant start <= i <= |content|
      invariant BlockLength(content[start..]) == i - start + BlockLength(content[i..])
    {
      assert content[i..][1..] == content[i + 1..];
      i := i + 1;
    }
    if i + 1 < |content| {
      assert content[start..][i + 2 - start..] == content[i + 2..];
    }
    i := i + 1;
  }

  lemma LineComment(content: string, i: nat, k: nat)
    requires i + k <= |content|
    requires (k == 1 && content[i] == '#')
             || (k == 2 && content[i] == '-' && content[i + 1] == '-')
    ensures PieceText(FirstPiece(content[i..])) == content[i..][..LineLength(content[i..])]
    ensures FirstPiece(content[i..]).Comment?
  {
    var rest := content[i..];
    assert rest[0] == content[i];
    if k == 2 {
      assert rest[1] == content[i + 1];
      assert rest[1..][1..] == rest[2..];
    }
  }

  lemma BlockComment(content: string, i: nat)
    requires i + 1 < |content| && content[i] == '/' && content[i + 1] == '*'
    ensures PieceText(FirstPiece(content[i..])) == content[i..][..2 + BlockLength(content[i + 2..])]
    ensures FirstPiece(content[i..]).Comment?
    ensures content[i..][2 + BlockLength(content[i + 2..])..] == content[i + 2..][BlockLength(content[i + 2..])..]
  {
    var rest := content[i..];
    assert rest[0] == content[i] && rest[1] == content[i + 1] && rest[2..] == content[i + 2..];
  }

  lemma CommentStarts(content: string, i: nat)
    requires i < |content| && content[i] != '\'' && content[i] != '"'
    ensures FirstPiece(content[i..]).Comment?
            <==> (|| (content[i] == '-' && i + 1 < |content| && content[i + 1] == '-')
                  || content[i] == '#'
                  || (content[i] == '/' && i + 1 < |content| && content[i + 1] == '*'))
  {
    var rest := content[i..];
    assert rest[0] == content[i] && (i + 1 < |content| ==> rest[1] == content[i + 1]);
  }

  /** The three comment forms. When one starts at `i`, `j` is its last character. */
  method SkipComment(content: string, i: nat) returns (found: bool, j: nat)
    requires i < |content| && content[i] != '\'' && content[i] != '"'
    ensures found == FirstPiece(content[i..]).Comment?
    ensures found ==> From(content, j + 1) == content[i..][|PieceText(FirstPiece(content[i..]))|..]
    ensures found ==> i <= j
  {
    hide *;
    CommentStarts(content, i);
    var c := content[i];
    if c == '-' && i + 1 < |content| && content[i + 1] == '-' {
      LineComment(content, i, 2);
      j := LineEnd(content, i);
      return true, j;
    }
    if c == '#' {
      LineComment(content, i, 1);
      j := LineEnd(content, i);
      return true, j;
    }
    if c == '/' && i + 1 < |content| && content[i + 1] == '*' {
      BlockComment(content, i);
      j := BlockEnd(content, i + 2);
      return true, j;
    }
    return false, i;
  }

  /** The scanner's state after reading up to `i`, with `todo` still to be sent. */
  ghost predicate Scan(content: string, i: nat, statement: string, inString: bool, quote: char, todo: seq<string>) {
    && (inString ==> IsQuote(quote))
    && todo == if inString then RestInString(statement, quote, From(content, i)) else Rest(statement, From(content, i))
  }

  lemma ScanString(content: string, i: nat, statement: string, quote: char, todo: seq<string>)
    requires i < |content| && Scan(content, i, statement, true, quote, todo)
    ensures var c := content[i];
            if c == '\\' && i + 1 < |content|
            then Scan(content, i + 2, statement + [c] + [content[i + 1]], true, quote, todo)
            else Scan(content, i + 1, statement + [c], c != quote, quote, todo)
  {
    var c, rest := content[i], content[i..];
    assert rest[0] == c && rest[1..] == content[i + 1..];
    if c == '\\' && i + 1 < |content| {
      StringGoesOn(statement, quote, rest, 2);
      assert statement + rest[..2] == statement + [c] + [content[i + 1]];
      assert rest[2..] == content[i + 2..];
    } else if c == quote {
      StringCloses(statement, quote, rest);
    } else {
      StringGoesOn(statement, quote, rest, 1);
      assert rest[..1] == [c];
    }
  }

  lemma ScanText(content: string, i: nat, statement: string, quote: char, todo: seq<string>)
    requires i < |content| && Scan(content, i, statement, false, quote, todo)
    ensures var c := content[i];
            && (c == '\'' || c == '"' ==> Scan(content, i + 1, statement + [c], true, c, todo))
            && ((c != '\'' && c != '"' && c != ';' && !FirstPiece(content[i..]).Comment?)
                ==> Scan(content, i + 1, statement + [c], false, quote, todo))
            && (c == ';' ==> && Scan(content, i + 1, "", false, quote, Rest("", content[i + 1..]))
                             && todo == (if Trim(statement) == "" then [] else [Trim(statement)])
                                        + Rest("", content[i + 1..]))
  {
    var c, rest := content[i], content[i..];
    assert rest[0] == c && rest[1..] == content[i + 1..];
    if IsQuote(c) {
      StringOpens(statement, rest);
    } else if c == ';' {
      RestEnds(statement, rest);
    } else if FirstPiece(rest).Plain? {
      RestTakes(statement, rest);
    }
  }

  lemma ScanComment(content: string, i: nat, j: nat, statement: string, quote: char, todo: seq<string>)
    requires i < |content| && Scan(content, i, statement, false, quote, todo)
    requires FirstPiece(content[i..]).Comment?
    requires From(content, j) == content[i..][|PieceText(FirstPiece(content[i..]))|..]
    ensures Scan(content, j, statement, false, quote, todo)
  {
    RestSkips(statement, content[i..]);
  }

  lemma ScanEnds(content: string, i: nat, statement: string, inString: bool, quote: char, todo: seq<string>)
    requires i >= |content| && Scan(content, i, statement, inString, quote, todo)
    ensures todo == (if Trim(statement) == "" then [] else [Trim(statement)]) + []
  {
    StringAtEnd(statement, quote);
    RestAtEnd(statement);
  }

  lemma ScanStarts(content: string)
    ensures Scan(content, 0, "", false, ' ', Queries(content))
  {
    RestAtStart(content);
    assert content[0..] == content;
  }

  /** Sends a statement unless it is blank. */
  method SendTrimmed(statement: string, db: Connection, ghost rest: seq<string>) returns (ok: bool)
    modifies db`sent
    ensures var qs := (if Trim(statement) == "" then [] else [Trim(statement)]) + rest;
            Outcome(db.accepts, old(db.sent), qs)
            == if ok then Outcome(db.accepts, db.sent, rest) else (db.sent, false)
  {
    var stmt := Trim(statement);
    ok := true;
    if stmt != "" {
      OutcomeSteps(db.accepts, db.sent, stmt, rest);
      ok := db.Query(stmt);
    } else {
      assert [] + rest == rest;
    }
  }

  /** One character of a quoted string, or a backslash with the character behind it. */
  method TakeQuoted(content: string, i: nat, statement: string, quote: char, ghost todo: seq<string>)
    returns (next: nat, longer: string, inString: bool)
    requires i < |content| && Scan(content, i, statement, true, quote, todo)
    ensures Scan(content, next, longer, inString, quote, todo) && next > i
  {
    var c := content[i];
    ScanString(content, i, statement, quote, todo);
    inString := c != quote;
    if c == '\\' && i + 1 < |content| {
      return i + 2, statement + [c] + [content[i + 1]], inString;
    }
    return i + 1, statement + [c], inString;
  }

  /** The scanner: one index, the statement read so far and the quote state. It sends
      each statement as it is completed and stops at the first that fails. `queries` is
      what the lexer makes of the script. */
  method Scanner(content: string, db: Connection, ghost queries: seq<string>) returns (ok: bool)
    requires Scan(content, 0, "", false, ' ', queries)
    modifies db`sent
    ensures (db.sent, ok) == Outcome(db.accepts, old(db.sent), queries)
  {
    hide *;
    var statement, inString, quote := "", false, ' ';
    var i := 0;
    ghost var todo := queries;
    while i < |content|
      invariant Scan(content, i, statement, inString, quote, todo)
      invariant Outcome(db.accepts, old(db.sent), queries) == Outcome(db.accepts, db.sent, todo)
      decreases |content| - i
    {
      var c := content[i];
      if inString {
        i, statement, inString := TakeQuoted(content, i, statement, quote, todo);
        continue;
      }
      ScanText(content, i, statement, quote, todo);
      if c == '\'' || c == '"' {
        inString, quote, statement := true, c, statement + [c];
        i := i + 1;
        continue;
      }
      var comment, j := SkipComment(content, i);
      if comment {
        ScanComment(content, i, j + 1, statement, quote, todo);
        i := j + 1;
        continue;
      }
      if c == ';' {
        todo := Rest("", content[i + 1..]);
        var sent := SendTrimmed(statement, db, todo);
        if !sent {
          return false;
        }
        statement := "";
        i := i + 1;
        continue;
      }
      statement := statement + [c];
      i := i + 1;
    }
    ScanEnds(content, i, statement, inString, quote, todo);
    ok := SendTrimmed(statement, db, []);
    OutcomeOfNothing(db.accepts, db.sent);
  }

  /** A script is sent as its queries, in order, up to the first that fails. */
  method RunScript(content: string, db: Connection) returns (ok: bool)
    modifies db`sent
    ensures (db.sent, ok) == Outcome(db.accepts, old(db.sent), Queries(content))
  {
    ScanStarts(content);
    ok := Scanner(content, db, Queries(content));
  }

  /** The script file of a database type, as the file system has it: the installed one
      first, then the one of the source tree. */
  function ScriptFile(files: map<string, string>, dbType: string): string {
    var installed := "/etc/scastd/" + dbType + ".sql";
    if installed in files then installed else "src/" + dbType + ".sql"
  }

  /** The installed script wins when both are there, and the source tree's serves when it is
      the only one. */
  lemma InstalledScriptWins(files: map<string, string>)
    ensures "/etc/scastd/mysql.sql" in files ==> ScriptFile(files, "mysql") == "/etc/scastd/mysql.sql"
    ensures "/etc/scastd/mysql.sql" !in files ==> ScriptFile(files, "mysql") == "src/mysql.sql"
    ensures "/etc/scastd/sqlite.sql" in files ==> ScriptFile(files, "sqlite") == "/etc/scastd/sqlite.sql"
    ensures "/etc/scastd/sqlite.sql" !in files ==> ScriptFile(files, "sqlite") == "src/sqlite.sql"
    ensures "/etc/scastd/postgres.sql" in files ==> ScriptFile(files, "postgres") == "/etc/scastd/postgres.sql"
    ensures "/etc/scastd/postgres.sql" !in files ==> ScriptFile(files, "postgres") == "src/postgres.sql"
  {
    assert "/etc/scastd/" + "mysql" + ".sql" == "/etc/scastd/mysql.sql" && "src/" + "mysql" + ".sql" == "src/mysql.sql";
    assert "/etc/scastd/" + "sqlite" + ".sql" == "/etc/scastd/sqlite.sql";
    assert "src/" + "sqlite" + ".sql" == "src/sqlite.sql";
    assert "/etc/scastd/" + "postgres" + ".sql" == "/etc/scastd/postgres.sql";
    assert "src/" + "postgres" + ".sql" == "src/postgres.sql";
  }

  /** Runs the schema script of a database type. The sqlite script goes to the database
      as a whole, every other one statement by statement. */
  method SetupDatabase(dbType: string, files: map<string, string>, db: Connection) returns (ok: bool)
    modifies db`sent
    ensures var kind := if dbType == "sqlite3" then "sqlite" else dbType;
            var file := ScriptFile(files, kind);
            if file !in files then !ok && db.sent == old(db.sent)
            else (db.sent, ok) == Outcome(db.accepts, old(db.sent),
                                          if kind == "sqlite" then [files[file]] else Queries(files[file]))
  {
    var kind := if dbType == "sqlite3" then "sqlite" else dbType;
    var file := "/etc/scastd/" + kind + ".sql";
    if file !in files {
      file := "src/" + kind + ".sql";
    }
    if file !in files {
      return false;
    }
    if kind == "sqlite" {
      OutcomeSteps(db.accepts, db.sent, files[file], []);
      assert [files[file]] + [] == [files[file]];
      ok := db.Query(files[file]);
      assert db.sent + [] == db.sent;
    } else {
      ok := RunScript(files[file], db);
    }
  }
}
