/** The command line that dumps the database, and how a shell reads it. */
module DumpCommand {
  import opened Text
  import opened Shell
  import Backend

  // ----- Escaping one field -----

  function EscapedChar(c: char): string {
    if c == '\'' then "'\\''" else [c]
  }

  function EscapedBody(s: string): string { MapChars(s, EscapedChar) }

  function Escaped(s: string): string { "'" + EscapedBody(s) + "'" }

  method ShellEscape(s: string) returns (out: string)
    ensures out == Escaped(s)
  {
    out := "'";
    for k := 0 to |s|
      invariant out == "'" + EscapedBody(s[..k])
    {
      var c := s[k];
      assert s[..k + 1][..k] == s[..k];
      if c == '\'' {
        out := out + "'\\''";
      } else {
        out := out + [c];
      }
    }
    assert s[..|s|] == s;
    out := out + "'";
  }

  /** Every character of a field, quoted. */
  function QuotedCells(s: string): (cells: seq<Cell>)
    ensures |cells| == |s|
  {
    if s == "" then [] else [Cell(s[0], true)] + QuotedCells(s[1..])
  }

  function PlainCells(s: string): (cells: seq<Cell>)
    ensures |cells| == |s|
  {
    if s == "" then [] else [Cell(s[0], false)] + PlainCells(s[1..])
  }

  /** Inside quotes, an escaped body adds its characters to the word, whatever follows. */
  lemma {:induction false} ReadBody(s: string, rest: string, w: seq<Cell>)
    ensures Read(EscapedBody(s) + rest, Some(w), true) == Read(rest, Some(w + QuotedCells(s)), true)
    decreases s
  {
    if s == "" {
      assert EscapedBody(s) + rest == rest && w + [] == w;
    } else {
      var c, tail := s[0], s[1..];
      assert s == [c] + tail;
      MapCharsCons(c, tail, EscapedChar);
      ReadBody(tail, rest, w + [Cell(c, true)]);
      assert w + [Cell(c, true)] + QuotedCells(tail) == w + QuotedCells(s);
      var more := EscapedBody(tail) + rest;
      assert EscapedBody(s) + rest == EscapedChar(c) + more;
      ReadChar(c, more, w);
    }
  }

  lemma ReadChar(c: char, more: string, w: seq<Cell>)
    ensures Read(EscapedChar(c) + more, Some(w), true) == Read(more, Some(w + [Cell(c, true)]), true)
  {
    var s := EscapedChar(c) + more;
    if c == '\'' {
      var t, u := "\\''" + more, "'" + more;
      var w' := w + [Cell(c, true)];
      assert s[1..] == t && t[2..] == u && u[1..] == more;
      assert Read(s, Some(w), true) == Read(t, Some(w), false);
      assert Read(t, Some(w), false) == Read(u, Some(w'), false);
      assert w' + [] == w';
    } else {
      assert s[1..] == more;
    }
  }

  /** An escaped field is one word, or the end of the word read so far, and stands for
      exactly its characters: empty ones and ones with quotes included. */
  lemma ReadEscaped(s: string, rest: string, w: seq<Cell>)
    ensures Read(Escaped(s) + rest, Some(w), false) == Read(rest, Some(w + QuotedCells(s)), false)
    ensures Read(Escaped(s) + rest, None, false) == Read(rest, Some(QuotedCells(s)), false)
  {
    var line := Escaped(s) + rest;
    assert line[0] == '\'' && line[1..] == EscapedBody(s) + ("'" + rest);
    ReadBody(s, "'" + rest, w);
    ReadBody(s, "'" + rest, []);
    assert ("'" + rest)[1..] == rest;
    var none: seq<Cell> := [];
    assert w + none == w && none + QuotedCells(s) == QuotedCells(s) && none + none == none;
  }

  lemma {:induction false} ReadPlain(s: string, rest: string, w: seq<Cell>)
    requires forall c <- s :: IsOrdinary(c)
    ensures Read(s + rest, Some(w), false) == Read(rest, Some(w + PlainCells(s)), false)
    decreases s
  {
    if s == "" {
      assert s + rest == rest && w + [] == w;
    } else {
      assert s[0] in s;
      assert (s + rest)[1..] == s[1..] + rest;
      ReadPlain(s[1..], rest, w + [Cell(s[0], false)]);
      assert w + [Cell(s[0], false)] + PlainCells(s[1..]) == w + PlainCells(s);
    }
  }

  lemma ReadOrdinary(c: char, rest: string)
    requires IsOrdinary(c)
    ensures Read([c] + rest, None, false) == Read(rest, Some([Cell(c, false)]), false)
  {
    var none: seq<Cell> := [];
    assert none + [Cell(c, false)] == [Cell(c, false)];
    assert ([c] + rest)[1..] == rest;
  }

  lemma ReadPlainStart(s: string, rest: string)
    requires s != "" && forall c <- s :: IsOrdinary(c)
    ensures Read(s + rest, None, false) == Read(rest, Some(PlainCells(s)), false)
  {
    var c, tail := s[0], s[1..];
    assert c in s;
    assert s + rest == [c] + (tail + rest);
    assert PlainCells(s) == [Cell(c, false)] + PlainCells(tail);
    hide Read, IsOrdinary, PlainCells;
    ReadOrdinary(c, tail + rest);
    ReadPlain(tail, rest, [Cell(c, false)]);
  }

  // ----- Command lines -----

  /** One item of a command line: ordinary text with an escaped field behind it, or the
      redirection sign. */
  datatype Part =
    | Plain(text: string)
    | Field(prefix: string, value: string)
    | Redirect

  predicate GoodPart(p: Part) {
    match p
    case Plain(text) => text != "" && forall c <- text :: IsOrdinary(c)
    case Field(prefix, _) => forall c <- prefix :: IsOrdinary(c)
    case Redirect => true
  }

  function PartText(p: Part): string {
    match p
    case Plain(text) => text
    case Field(prefix, value) => prefix + Escaped(value)
    case Redirect => ">"
  }

  function PartToken(p: Part): Token {
    match p
    case Plain(text) => Word(PlainCells(text))
    case Field(prefix, value) => Word(PlainCells(prefix) + QuotedCells(value))
    case Redirect => Greater
  }

  function Line(parts: seq<Part>): string {
    if parts == [] then ""
    else if |parts| == 1 then PartText(parts[0])
    else PartText(parts[0]) + " " + Line(parts[1..])
  }

  function PartTokens(parts: seq<Part>): seq<Token> {
    if parts == [] then [] else [PartToken(parts[0])] + PartTokens(parts[1..])
  }

  lemma {:induction false} LineSnoc(parts: seq<Part>, p: Part)
    requires parts != []
    ensures Line(parts + [p]) == Line(parts) + " " + PartText(p)
  {
    var all := parts + [p];
    assert all[1..] == parts[1..] + [p];
    if |parts| > 1 {
      LineSnoc(parts[1..], p);
    }
  }

  /** What may follow a part: nothing, or a blank. */
  predicate Ends(rest: string) { rest == "" || rest[0] == ' ' }

  lemma ReadPart(p: Part, rest: string)
    requires GoodPart(p) && Ends(rest)
    ensures Read(PartText(p) + rest, None, false) == Push(PartToken(p), Read(rest, None, false))
  {
    match p
    case Plain(text) => ReadPlainStart(text, rest);
    case Field(prefix, value) =>
      assert prefix + Escaped(value) + rest == prefix + (Escaped(value) + rest);
      if prefix == "" {
        assert prefix + (Escaped(value) + rest) == Escaped(value) + rest;
        assert PlainCells(prefix) + QuotedCells(value) == QuotedCells(value);
      } else {
        ReadPlainStart(prefix, Escaped(value) + rest);
      }
      ReadEscaped(value, rest, PlainCells(prefix));
    case Redirect =>
      assert (">" + rest)[1..] == rest;
  }

  /** The shell reads a command line part by part. */
  lemma {:induction false} ReadLine(parts: seq<Part>)
    requires forall p <- parts :: GoodPart(p)
    ensures Read(Line(parts), None, false) == Tokens(PartTokens(parts))
  {
    if parts != [] {
      assert parts[0] in parts;
      ReadLine(parts[1..]);
      if |parts| == 1 {
        ReadPart(parts[0], "");
        assert PartText(parts[0]) + "" == PartText(parts[0]);
      } else {
        var rest := " " + Line(parts[1..]);
        ReadPart(parts[0], rest);
        assert rest[1..] == Line(parts[1..]);
        assert PartText(parts[0]) + " " + Line(parts[1..]) == PartText(parts[0]) + rest;
      }
    }
  }

  // ----- The meaning of a command line -----

  predicate NulFree(s: string) { '\0' !in s }

  predicate NulFreePart(p: Part) { p.Field? ==> NulFree(p.value) }

  lemma {:induction false} CStringOfNulFree(s: string, rest: string)
    requires NulFree(s)
    ensures CString(s + rest) == s + CString(rest)
  {
    if s == "" {
      assert s + rest == rest;
    } else {
      assert (s + rest)[1..] == s[1..] + rest;
      CStringOfNulFree(s[1..], rest);
    }
  }

  lemma {:induction false} EscapedNulFree(s: string)
    requires NulFree(s)
    ensures NulFree(EscapedBody(s))
  {
    if s != "" {
      EscapedNulFree(s[..|s| - 1]);
    }
  }

  lemma PartNulFree(p: Part)
    requires GoodPart(p) && NulFreePart(p)
    ensures NulFree(PartText(p))
  {
    if p.Field? {
      EscapedNulFree(p.value);
    }
  }

  lemma {:induction false} LineNulFree(parts: seq<Part>)
    requires forall p <- parts :: GoodPart(p) && NulFreePart(p)
    ensures CString(Line(parts)) == Line(parts)
  {
    if parts != [] {
      assert parts[0] in parts;
      PartNulFree(parts[0]);
      LineNulFree(parts[1..]);
      var t := PartText(parts[0]);
      if |parts| == 1 {
        CStringOfNulFree(t, "");
        assert t + "" == t;
      } else {
        CStringOfNulFree(t + " ", Line(parts[1..]));
      }
    }
  }

  lemma {:induction false} FirstNul(s: string) returns (a: string, b: string)
    requires !NulFree(s)
    ensures NulFree(a) && s == a + (['\0'] + b)
  {
    if s[0] == '\0' {
      a, b := "", s[1..];
    } else {
      assert s == [s[0]] + s[1..];
      a, b := FirstNul(s[1..]);
      a := [s[0]] + a;
    }
  }

  lemma CStringStops(s: string, rest: string)
    requires NulFree(s)
    ensures CString(s + (['\0'] + rest)) == s
  {
    CStringOfNulFree(s, ['\0'] + rest);
    assert CString(['\0'] + rest) == "" && s + "" == s;
  }

  lemma Regroup(prefix: string, a: string, b: string, rest: string)
    ensures prefix + ("'" + (a + (['\0'] + b)) + "'") + rest == (prefix + "'" + a) + (['\0'] + (b + "'" + rest))
  {
  }

  /** A NUL inside a field cuts the C string between its quotes, which the shell then
      waits for in vain. */
  lemma FieldWithNul(prefix: string, value: string, rest: string)
    requires (forall c <- prefix :: IsOrdinary(c)) && !NulFree(value)
    ensures Read(CString(prefix + Escaped(value) + rest), None, false) == Unterminated
  {
    var a, b := FirstNul(value);
    hide EscapedBody, Read, CString, IsOrdinary;
    MapCharsConcat(a, ['\0'] + b, EscapedChar);
    NulIsPlain(b);
    EscapedNulFree(a);
    Regroup(prefix, EscapedBody(a), EscapedBody(b), rest);
    var kept := prefix + "'" + EscapedBody(a);
    assert NulFree(kept) by {
      OrdinaryIsNulFree(prefix);
    }
    CStringStops(kept, EscapedBody(b) + "'" + rest);
    ReadCut(prefix, a);
  }

  lemma OrdinaryIsNulFree(s: string)
    requires forall c <- s :: IsOrdinary(c)
    ensures NulFree(s)
  {
  }

  lemma NulIsPlain(b: string)
    ensures EscapedBody(['\0'] + b) == ['\0'] + EscapedBody(b)
  {
    MapCharsCons('\0', b, EscapedChar);
  }

  lemma ReadCut(prefix: string, value: string)
    requires forall c <- prefix :: IsOrdinary(c)
    ensures Read(prefix + "'" + EscapedBody(value), None, false) == Unterminated
  {
    var open := "'" + EscapedBody(value);
    assert open[1..] == EscapedBody(value) + "";
    var w := PlainCells(prefix);
    ReadBody(value, "", w);
    ReadBody(value, "", []);
    assert w + [] == w;
    var none: seq<Cell> := [];
    assert none + none == none;
    assert prefix + "'" + EscapedBody(value) == prefix + open;
    if prefix == "" {
      assert prefix + open == open;
    } else {
      ReadPlainStart(prefix, open);
    }
  }

  lemma CutLater(p: Part, more: string)
    requires GoodPart(p) && NulFreePart(p)
    ensures Read(CString(PartText(p) + (" " + more)), None, false)
            == Push(PartToken(p), Read(CString(more), None, false))
  {
    var tail := CString(more);
    PartNulFree(p);
    CStringOfNulFree(PartText(p), " " + more);
    assert (" " + more)[1..] == more && (" " + tail)[1..] == tail;
    assert CString(" " + more) == " " + tail;
    hide CString, GoodPart, NulFreePart, PartText;
    ReadPart(p, " " + tail);
  }

  lemma {:induction false} LineWithNul(parts: seq<Part>)
    requires (forall p <- parts :: GoodPart(p)) && exists p <- parts :: !NulFreePart(p)
    ensures Read(CString(Line(parts)), None, false) == Unterminated
  {
    var p, rest := parts[0], if |parts| == 1 then "" else " " + Line(parts[1..]);
    assert p in parts;
    assert Line(parts) == PartText(p) + rest;
    hide Line, Read, CString, GoodPart, Escaped, PartToken;
    if !NulFreePart(p) {
      FieldWithNul(p.prefix, p.value, rest);
    } else {
      LineWithNul(parts[1..]);
      CutLater(p, Line(parts[1..]));
    }
  }

  /** What a part stands for. */
  function PartWord(p: Part): string
    requires !p.Redirect?
  {
    match p
    case Plain(text) => text
    case Field(prefix, value) => prefix + value
  }

  function PartWords(parts: seq<Part>): seq<string>
    requires forall p <- parts :: !p.Redirect?
  {
    if parts == [] then [] else [PartWord(parts[0])] + PartWords(parts[1..])
  }

  lemma {:induction false} CharsConcat(a: seq<Cell>, b: seq<Cell>)
    ensures Chars(a + b) == Chars(a) + Chars(b)
  {
    if a == [] {
      assert a + b == b;
    } else {
      assert (a + b)[1..] == a[1..] + b;
      CharsConcat(a[1..], b);
    }
  }

  lemma CharsOfCells(s: string)
    ensures Chars(PlainCells(s)) == s && Chars(QuotedCells(s)) == s
  {
    if s != "" {
      CharsOfCells(s[1..]);
    }
  }

  lemma WordOfPart(p: Part)
    requires !p.Redirect?
    ensures PartToken(p).Word? && Chars(PartToken(p).cells) == PartWord(p)
  {
    match p
    case Plain(text) => CharsOfCells(text);
    case Field(prefix, value) =>
      CharsOfCells(prefix);
      CharsOfCells(value);
      CharsConcat(PlainCells(prefix), QuotedCells(value));
  }

  lemma TokensCons(p: Part, parts: seq<Part>)
    ensures PartTokens([p] + parts) == [PartToken(p)] + PartTokens(parts)
  {
    assert ([p] + parts)[1..] == parts;
  }

  function Into(file: string): seq<Part> { [Redirect, Field("", file)] }

  lemma ArgumentsInto(file: string)
    ensures Arguments(PartTokens(Into(file))) == Some(Command([], [], [file]))
  {
    var target := Field("", file);
    TokensCons(target, []);
    assert [target] + [] == [target] && [Redirect] + [target] == Into(file);
    TokensCons(Redirect, [target]);
    WordOfPart(target);
    assert "" + file == file;
    var ts := PartTokens(Into(file));
    assert ts == [Greater, PartToken(target)] && ts[2..] == [];
    assert Arguments(ts[2..]) == Some(Command([], [], []));
    assert [file] + [] == [file];
  }

  /** The words of a command and its one redirection. */
  lemma {:induction false} ArgumentsOf(args: seq<Part>, file: string)
    requires forall p <- args :: !p.Redirect?
    ensures Arguments(PartTokens(args + Into(file))) == Some(Command([], PartWords(args), [file]))
  {
    if args == [] {
      ArgumentsInto(file);
      assert args + Into(file) == Into(file);
    } else {
      var first, rest := args[0], args[1..];
      assert first in args;
      WordOfPart(first);
      ArgumentsOf(rest, file);
      TokensCons(first, rest + Into(file));
      assert args + Into(file) == [first] + (rest + Into(file));
      assert ([PartToken(first)] + PartTokens(rest + Into(file)))[1..] == PartTokens(rest + Into(file));
    }
  }

  predicate IsName(s: string) {
    s != "" && IsNameStart(s[0]) && forall c <- s :: IsNameStart(c) || IsDigit(c)
  }

  lemma {:induction false} CellsAt(s: string, k: nat)
    requires k < |s|
    ensures |PlainCells(s)| == |s| && PlainCells(s)[k] == Cell(s[k], false)
  {
    CharsOfCells(s);
    if k > 0 {
      CellsAt(s[1..], k - 1);
    }
  }

  lemma {:induction false} NameLengthOf(name: string, cells: seq<Cell>, k: nat)
    requires IsName(name) && k <= |name|
    requires PlainCells(name + "=") <= cells
    ensures NameLength(cells, k) == Some(|name|)
    decreases |name| - k
  {
    var t := name + "=";
    CellsAt(t, k);
    assert cells[k] == PlainCells(t)[k];
    if k < |name| {
      assert t[k] == name[k] && name[k] in name;
      NameLengthOf(name, cells, k + 1);
    }
  }

  lemma {:induction false} NoName(text: string, k: nat)
    requires '=' !in text && k <= |text|
    ensures NameLength(PlainCells(text), k) == None
    decreases |text| - k
  {
    CharsOfCells(text);
    if k < |text| {
      CellsAt(text, k);
      NoName(text, k + 1);
    }
  }

  /** A command without assignments. */
  lemma ParseCommand(name: string, args: seq<Part>, file: string)
    requires '=' !in name && forall p <- args :: !p.Redirect?
    ensures Parse(PartTokens([Plain(name)] + (args + Into(file))))
            == Some(Command([], [name] + PartWords(args), [file]))
  {
    var head := [Plain(name)] + args;
    NoName(name, 0);
    ArgumentsOf(head, file);
    TokensCons(Plain(name), args + Into(file));
    assert head + Into(file) == [Plain(name)] + (args + Into(file));
    assert head[1..] == args;
  }

  /** The same behind one assignment. */
  lemma ParseWithEnv(env: string, value: string, name: string, args: seq<Part>, file: string)
    requires IsName(env) && '=' !in name && forall p <- args :: !p.Redirect?
    ensures Parse(PartTokens([Field(env + "=", value)] + ([Plain(name)] + (args + Into(file)))))
            == Some(Command([(env, value)], [name] + PartWords(args), [file]))
  {
    var rest := [Plain(name)] + (args + Into(file));
    var cells := PlainCells(env + "=") + QuotedCells(value);
    ParseCommand(name, args, file);
    TokensCons(Field(env + "=", value), rest);
    var ts := PartTokens([Field(env + "=", value)] + rest);
    assert ts[0] == Word(cells) && ts[1..] == PartTokens(rest);
    NameLengthOf(env, cells, 0);
    EnvCells(env, value);
    assert [(env, value)] + [] == [(env, value)];
  }

  lemma EnvCells(env: string, value: string)
    ensures var cells := PlainCells(env + "=") + QuotedCells(value);
            |cells| > |env| && Chars(cells[..|env|]) == env && Chars(cells[|env| + 1..]) == value
  {
    var cells := PlainCells(env + "=") + QuotedCells(value);
    PlainConcat(env, "=");
    CharsOfCells(env);
    CharsOfCells("=");
    CharsOfCells(value);
    assert cells[..|env|] == PlainCells(env);
    assert cells[|env| + 1..] == QuotedCells(value);
  }

  lemma {:induction false} PlainConcat(a: string, b: string)
    ensures PlainCells(a + b) == PlainCells(a) + PlainCells(b)
  {
    if a == "" {
      assert a + b == b;
    } else {
      assert (a + b)[1..] == a[1..] + b;
      PlainConcat(a[1..], b);
    }
  }

  // ----- The dump -----

  /** The settings of a dump. Unlike the daemon, it does not replace an unknown type. */
  function DumpSettings(cfg: Backend.Config): Backend.Params {
    var w := Backend.Wanted(Backend.NOTHING, cfg);
    if w.dbType == "sqlite" || w.user == "" || w.host == "" || w.name == ""
    then w.(dbType := "sqlite", name := Backend.GetString(cfg, "sqlite_path", Backend.DEFAULT_SQLITE_PATH))
    else w
  }

  /** What an option contributes to the words of the command. */
  function OptionWords(given: bool, flag: string, value: string): seq<string> {
    if given then [flag, value] else []
  }

  function ServerArguments(p: Backend.Params, portFlag: string, userFlag: string): seq<string> {
    OptionWords(p.host != "", "-h", p.host) + OptionWords(p.port > 0, portFlag, ToString(p.port))
    + OptionWords(p.user != "", userFlag, p.user) + [p.name]
  }

  /** The command that is meant to run. */
  function Intended(p: Backend.Params, file: string): Command {
    if p.dbType == "mysql" || p.dbType == "mariadb" then
      Command([("MYSQL_PWD", p.pass)], ["mysqldump"] + ServerArguments(p, "-P", "-u"), [file])
    else if p.dbType == "postgres" then
      Command([("PGPASSWORD", p.pass)], ["pg_dump"] + ServerArguments(p, "-p", "-U"), [file])
    else
      Command([], ["sqlite3", p.name, ".dump"], [file])
  }

  /** The fields that end up in the command line. */
  predicate FieldsNulFree(p: Backend.Params, file: string) {
    NulFree(p.name) && NulFree(file)
    && ((p.dbType == "mysql" || p.dbType == "mariadb" || p.dbType == "postgres") ==>
          NulFree(p.pass) && NulFree(p.host) && NulFree(p.user))
  }

  // ----- Building the command line -----

  function OptionParts(given: bool, flag: string, value: Part): seq<Part> {
    if given then [Plain(flag), value] else []
  }

  function ServerParts(p: Backend.Params, portFlag: string, userFlag: string): seq<Part> {
    OptionParts(p.host != "", "-h", Field("", p.host)) + OptionParts(p.port > 0, portFlag, Plain(ToString(p.port)))
    + OptionParts(p.user != "", userFlag, Field("", p.user)) + [Field("", p.name)]
  }

  lemma {:induction false} WordsConcat(a: seq<Part>, b: seq<Part>)
    requires forall p <- a + b :: !p.Redirect?
    ensures (forall p <- a :: !p.Redirect?) && (forall p <- b :: !p.Redirect?)
    ensures PartWords(a + b) == PartWords(a) + PartWords(b)
  {
    assert forall p <- a :: p in a + b;
    assert forall p <- b :: p in a + b;
    if a == [] {
      assert a + b == b;
    } else {
      assert (a + b)[1..] == a[1..] + b;
      assert forall p <- a[1..] + b :: p in a + b;
      WordsConcat(a[1..], b);
    }
  }

  lemma WordsOfOne(p: Part)
    requires !p.Redirect?
    ensures PartWords([p]) == [PartWord(p)]
  {
    var one := [p];
    assert one[1..] == [] && [PartWord(p)] + [] == [PartWord(p)];
  }

  lemma WordsOfOption(given: bool, flag: string, value: Part)
    requires !value.Redirect?
    ensures forall part <- OptionParts(given, flag, value) :: !part.Redirect?
    ensures PartWords(OptionParts(given, flag, value)) == OptionWords(given, flag, PartWord(value))
  {
    if given {
      WordsOfOne(Plain(flag));
      WordsOfOne(value);
      WordsConcat([Plain(flag)], [value]);
      assert [Plain(flag)] + [value] == OptionParts(given, flag, value);
    }
  }

  lemma ServerWords(p: Backend.Params, portFlag: string, userFlag: string)
    ensures forall part <- ServerParts(p, portFlag, userFlag) :: !part.Redirect?
    ensures PartWords(ServerParts(p, portFlag, userFlag)) == ServerArguments(p, portFlag, userFlag)
  {
    var host := OptionParts(p.host != "", "-h", Field("", p.host));
    var port := OptionParts(p.port > 0, portFlag, Plain(ToString(p.port)));
    var user := OptionParts(p.user != "", userFlag, Field("", p.user));
    BareWord(p.host);
    BareWord(p.user);
    BareWord(p.name);
    assert PartWord(Plain(ToString(p.port))) == ToString(p.port);
    hide PartWord, PartWords, OptionParts, OptionWords, ToString;
    WordsOfOption(p.host != "", "-h", Field("", p.host));
    WordsOfOption(p.port > 0, portFlag, Plain(ToString(p.port)));
    WordsOfOption(p.user != "", userFlag, Field("", p.user));
    WordsOfOne(Field("", p.name));
    WordsConcat(host, port);
    WordsConcat(host + port, user);
    WordsConcat(host + port + user, [Field("", p.name)]);
  }

  lemma BareWord(value: string)
    ensures PartWord(Field("", value)) == value
  {
    assert "" + value == value;
  }

  function DumpParts(p: Backend.Params, file: string): seq<Part> {
    if p.dbType == "mysql" || p.dbType == "mariadb" then
      [Field("MYSQL_PWD=", p.pass)] + ([Plain("mysqldump")] + (ServerParts(p, "-P", "-u") + Into(file)))
    else if p.dbType == "postgres" then
      [Field("PGPASSWORD=", p.pass)] + ([Plain("pg_dump")] + (ServerParts(p, "-p", "-U") + Into(file)))
    else
      [Plain("sqlite3")] + ([Field("", p.name), Plain(".dump")] + Into(file))
  }

  lemma SqlitePartsMean(name: string, file: string)
    ensures Parse(PartTokens([Plain("sqlite3")] + ([Field("", name), Plain(".dump")] + Into(file))))
            == Some(Command([], ["sqlite3", name, ".dump"], [file]))
  {
    var args := [Field("", name), Plain(".dump")];
    hide Parse, PartTokens, PartWords;
    ParseCommand("sqlite3", args, file);
    WordsOfOne(Field("", name));
    WordsOfOne(Plain(".dump"));
    WordsConcat([Field("", name)], [Plain(".dump")]);
    assert [Field("", name)] + [Plain(".dump")] == args && "" + name == name;
    assert ["sqlite3"] + ([name] + [".dump"]) == ["sqlite3", name, ".dump"];
  }

  lemma PartsMeanIntended(p: Backend.Params, file: string)
    ensures Parse(PartTokens(DumpParts(p, file))) == Some(Intended(p, file))
  {
    hide Parse, PartTokens, PartWords, ServerParts, ServerArguments;
    if p.dbType == "mysql" || p.dbType == "mariadb" {
      ServerWords(p, "-P", "-u");
      assert "MYSQL_PWD" + "=" == "MYSQL_PWD=";
      ParseWithEnv("MYSQL_PWD", p.pass, "mysqldump", ServerParts(p, "-P", "-u"), file);
    } else if p.dbType == "postgres" {
      ServerWords(p, "-p", "-U");
      assert "PGPASSWORD" + "=" == "PGPASSWORD=";
      ParseWithEnv("PGPASSWORD", p.pass, "pg_dump", ServerParts(p, "-p", "-U"), file);
    } else {
      SqlitePartsMean(p.name, file);
    }
  }

  // ----- The command line itself -----

  predicate GoodParts(parts: seq<Part>) { forall p <- parts :: GoodPart(p) }

  predicate NulFreeParts(parts: seq<Part>) { forall p <- parts :: NulFreePart(p) }

  lemma PartsConcat(a: seq<Part>, b: seq<Part>)
    ensures GoodParts(a + b) <==> GoodParts(a) && GoodParts(b)
    ensures NulFreeParts(a + b) <==> NulFreeParts(a) && NulFreeParts(b)
  {
    var ab := a + b;
    assert forall p <- a :: p in ab;
    assert forall p <- b :: p in ab;
  }

  lemma PartsOfOne(p: Part)
    ensures GoodParts([p]) == GoodPart(p) && NulFreeParts([p]) == NulFreePart(p)
  {
    assert p in [p];
  }

  lemma PartsOfOption(given: bool, flag: string, value: Part)
    requires GoodPart(Plain(flag)) && (given ==> GoodPart(value))
    ensures GoodParts(OptionParts(given, flag, value))
    ensures NulFreeParts(OptionParts(given, flag, value)) <==> (given ==> NulFreePart(value))
  {
    if given {
      assert value in OptionParts(given, flag, value);
    }
  }

  lemma PortIsOrdinary(port: int)
    requires port > 0
    ensures GoodPart(Plain(ToString(port)))
  {
    assert AllDigits(ToString(port));
  }

  lemma ServerPartsAre(p: Backend.Params, portFlag: string, userFlag: string)
    requires GoodPart(Plain(portFlag)) && GoodPart(Plain(userFlag))
    ensures GoodParts(ServerParts(p, portFlag, userFlag))
    ensures NulFreeParts(ServerParts(p, portFlag, userFlag)) <==> NulFree(p.host) && NulFree(p.user) && NulFree(p.name)
  {
    var host := OptionParts(p.host != "", "-h", Field("", p.host));
    var port := OptionParts(p.port > 0, portFlag, Plain(ToString(p.port)));
    var user := OptionParts(p.user != "", userFlag, Field("", p.user));
    PartsOfOption(p.host != "", "-h", Field("", p.host));
    if p.port > 0 {
      PortIsOrdinary(p.port);
    }
    PartsOfOption(p.port > 0, portFlag, Plain(ToString(p.port)));
    PartsOfOption(p.user != "", userFlag, Field("", p.user));
    PartsOfOne(Field("", p.name));
    hide OptionParts, GoodParts, NulFreeParts, ToString;
    PartsConcat(host, port);
    PartsConcat(host + port, user);
    PartsConcat(host + port + user, [Field("", p.name)]);
  }

  lemma IntoIs(file: string)
    ensures GoodParts(Into(file)) && (NulFreeParts(Into(file)) <==> NulFree(file))
  {
    assert Field("", file) in Into(file);
  }

  lemma ServerCommandIs(env: string, pass: string, name: string, args: seq<Part>, file: string)
    requires GoodPart(Field(env, pass)) && GoodPart(Plain(name)) && GoodParts(args)
    ensures var all := [Field(env, pass)] + ([Plain(name)] + (args + Into(file)));
            GoodParts(all) && (NulFreeParts(all) <==> NulFree(pass) && NulFreeParts(args) && NulFree(file))
  {
    IntoIs(file);
    PartsOfOne(Field(env, pass));
    PartsOfOne(Plain(name));
    hide GoodParts, NulFreeParts, Into;
    PartsConcat(args, Into(file));
    PartsConcat([Plain(name)], args + Into(file));
    PartsConcat([Field(env, pass)], [Plain(name)] + (args + Into(file)));
  }

  lemma SqliteCommandIs(name: string, file: string)
    ensures var all := [Plain("sqlite3")] + ([Field("", name), Plain(".dump")] + Into(file));
            GoodParts(all) && (NulFreeParts(all) <==> NulFree(name) && NulFree(file))
  {
    IntoIs(file);
    PartsOfOne(Plain("sqlite3"));
    PartsOfOne(Field("", name));
    PartsOfOne(Plain(".dump"));
    hide GoodParts, NulFreeParts, Into;
    PartsConcat([Field("", name)], [Plain(".dump")]);
    assert [Field("", name)] + [Plain(".dump")] == [Field("", name), Plain(".dump")];
    PartsConcat([Field("", name), Plain(".dump")], Into(file));
    PartsConcat([Plain("sqlite3")], [Field("", name), Plain(".dump")] + Into(file));
  }

  lemma AllOrdinary(s: string)
    requires forall k :: 0 <= k < |s| ==> IsOrdinary(s[k])
    ensures forall c <- s :: IsOrdinary(c)
  {
    hide IsOrdinary;
  }

  lemma VariablesAreOrdinary(pass: string)
    ensures GoodPart(Field("MYSQL_PWD=", pass)) && GoodPart(Field("PGPASSWORD=", pass))
  {
    AllOrdinary("MYSQL_PWD=");
    AllOrdinary("PGPASSWORD=");
    hide IsOrdinary;
  }

  lemma NamesAreOrdinary(pass: string)
    ensures GoodPart(Field("MYSQL_PWD=", pass)) && GoodPart(Field("PGPASSWORD=", pass))
    ensures GoodPart(Plain("mysqldump")) && GoodPart(Plain("pg_dump"))
  {
    VariablesAreOrdinary(pass);
    AllOrdinary("mysqldump");
    AllOrdinary("pg_dump");
    hide IsOrdinary;
  }

  lemma FlagsAreOrdinary()
    ensures GoodPart(Plain("-P")) && GoodPart(Plain("-u")) && GoodPart(Plain("-p")) && GoodPart(Plain("-U"))
  {
  }

  lemma DumpPartsAre(p: Backend.Params, file: string)
    ensures GoodParts(DumpParts(p, file))
    ensures NulFreeParts(DumpParts(p, file)) <==> FieldsNulFree(p, file)
  {
    NamesAreOrdinary(p.pass);
    FlagsAreOrdinary();
    hide GoodParts, NulFreeParts, ServerParts, Into, NulFree, GoodPart;
    if p.dbType == "mysql" || p.dbType == "mariadb" {
      ServerPartsAre(p, "-P", "-u");
      ServerCommandIs("MYSQL_PWD=", p.pass, "mysqldump", ServerParts(p, "-P", "-u"), file);
    } else if p.dbType == "postgres" {
      ServerPartsAre(p, "-p", "-U");
      ServerCommandIs("PGPASSWORD=", p.pass, "pg_dump", ServerParts(p, "-p", "-U"), file);
    } else {
      SqliteCommandIs(p.name, file);
    }
  }

  /** What a shell makes of the line these parts form: the intended command when no
      field holds a NUL, and nothing at all when one does. */
  lemma DumpLineMeans(p: Backend.Params, file: string)
    ensures Meaning(CString(Line(DumpParts(p, file))))
            == if FieldsNulFree(p, file) then Some(Intended(p, file)) else None
  {
    var parts := DumpParts(p, file);
    DumpPartsAre(p, file);
    hide DumpParts, FieldsNulFree, Intended;
    if NulFreeParts(parts) {
      LineNulFree(parts);
      ReadLine(parts);
      PartsMeanIntended(p, file);
    } else {
      LineWithNul(parts);
    }
  }

  /** Appends one more part, with a blank in front. */
  method Append(line: string, p: Part, ghost parts: seq<Part>) returns (longer: string)
    requires parts != [] && line == Line(parts)
    ensures longer == Line(parts + [p])
  {
    LineSnoc(parts, p);
    match p
    case Plain(text) =>
      longer := line + " " + text;
    case Field(prefix, value) =>
      var escaped := ShellEscape(value);
      assert line + " " + (prefix + escaped) == line + " " + prefix + escaped;
      longer := line + " " + prefix + escaped;
    case Redirect =>
      longer := line + " >";
      assert " " + ">" == " >" && line + " " + ">" == line + " >";
  }

  /** Appends an option, when it is given. */
  method AppendOption(line: string, given: bool, flag: string, value: Part, ghost parts: seq<Part>)
    returns (longer: string)
    requires parts != [] && line == Line(parts)
    ensures longer == Line(parts + OptionParts(given, flag, value))
  {
    longer := line;
    if given {
      longer := Append(longer, Plain(flag), parts);
      longer := Append(longer, value, parts + [Plain(flag)]);
      assert parts + [Plain(flag)] + [value] == parts + OptionParts(given, flag, value);
    } else {
      assert parts + OptionParts(given, flag, value) == parts;
    }
  }

  /** The options and operands of a server's dump program. */
  method AppendServer(line: string, p: Backend.Params, portFlag: string, userFlag: string, ghost parts: seq<Part>)
    returns (longer: string)
    requires parts != [] && line == Line(parts)
    ensures longer == Line(parts + ServerParts(p, portFlag, userFlag))
  {
    hide Line, OptionParts, ToString;
    ghost var host := OptionParts(p.host != "", "-h", Field("", p.host));
    ghost var port := OptionParts(p.port > 0, portFlag, Plain(ToString(p.port)));
    ghost var user := OptionParts(p.user != "", userFlag, Field("", p.user));
    longer := AppendOption(line, p.host != "", "-h", Field("", p.host), parts);
    longer := AppendOption(longer, p.port > 0, portFlag, Plain(ToString(p.port)), parts + host);
    longer := AppendOption(longer, p.user != "", userFlag, Field("", p.user), parts + host + port);
    longer := Append(longer, Field("", p.name), parts + host + port + user);
    assert parts + host + port + user + [Field("", p.name)] == parts + ServerParts(p, portFlag, userFlag);
  }

  /** The redirection at the end of every dump command. */
  method AppendInto(line: string, file: string, ghost parts: seq<Part>) returns (longer: string)
    requires parts != [] && line == Line(parts)
    ensures longer == Line(parts + Into(file))
  {
    longer := Append(line, Redirect, parts);
    longer := Append(longer, Field("", file), parts + [Redirect]);
    assert parts + [Redirect] + [Field("", file)] == parts + Into(file);
  }

  lemma AssocParts(a: seq<Part>, b: seq<Part>, c: seq<Part>, d: seq<Part>)
    ensures a + b + c + d == a + (b + (c + d))
  {
  }

  method ServerCommand(env: string, name: string, portFlag: string, userFlag: string, p: Backend.Params, file: string)
    returns (cmd: string)
    ensures cmd == Line([Field(env, p.pass)] + ([Plain(name)] + (ServerParts(p, portFlag, userFlag) + Into(file))))
  {
    ghost var head := [Field(env, p.pass)];
    assert Line(head) == env + Escaped(p.pass);
    hide Line, ServerParts, Into, Escaped;
    var escaped := ShellEscape(p.pass);
    cmd := env + escaped;
    ghost var args := ServerParts(p, portFlag, userFlag);
    cmd := Append(cmd, Plain(name), head);
    cmd := AppendServer(cmd, p, portFlag, userFlag, head + [Plain(name)]);
    cmd := AppendInto(cmd, file, head + [Plain(name)] + args);
    AssocParts(head, [Plain(name)], args, Into(file));
  }

  method SqliteCommand(name: string, file: string) returns (cmd: string)
    ensures cmd == Line([Plain("sqlite3")] + ([Field("", name), Plain(".dump")] + Into(file)))
  {
    ghost var head := [Plain("sqlite3")];
    cmd := "sqlite3";
    assert Line(head) == cmd;
    hide Line, Into;
    cmd := Append(cmd, Field("", name), head);
    cmd := Append(cmd, Plain(".dump"), head + [Field("", name)]);
    cmd := AppendInto(cmd, file, head + [Field("", name)] + [Plain(".dump")]);
    assert head + [Field("", name)] + [Plain(".dump")] + Into(file)
           == head + ([Field("", name), Plain(".dump")] + Into(file));
  }

  /** The command line of a dump. The shell that `system` starts runs exactly the intended
      program with the intended environment, words and output file, for all field values
      without a NUL; with one, it runs nothing. */
  method DumpCommandLine(cfg: Backend.Config, file: string) returns (cmd: string)
    ensures var p := DumpSettings(cfg);
            Meaning(CString(cmd)) == if FieldsNulFree(p, file) then Some(Intended(p, file)) else None
  {
    var p := DumpSettings(cfg);
    DumpLineMeans(p, file);
    hide DumpSettings, Meaning, CString, FieldsNulFree, Intended;
    if p.dbType == "mysql" || p.dbType == "mariadb" {
      cmd := ServerCommand("MYSQL_PWD=", "mysqldump", "-P", "-u", p, file);
    } else if p.dbType == "postgres" {
      cmd := ServerCommand("PGPASSWORD=", "pg_dump", "-p", "-U", p, file);
    } else {
      cmd := SqliteCommand(p.name, file);
    }
  }

  // ----- The dump by name -----

  /** The escaped text: a field without quotes between quotes, and a quote in a field as the
      four characters that end the quotation, stand for a quote and resume it. */
  lemma EscapedTexts(s: string, t: string)
    requires '\'' !in s
    ensures Escaped(s) == "'" + s + "'"
    ensures Escaped(s + ("'" + t)) == "'" + s + "'\\'" + Escaped(t)
  {
    NoQuote(s);
    MapCharsConcat(s, "'" + t, EscapedChar);
    MapCharsCons('\'', t, EscapedChar);
    hide EscapedBody;
    QuoteInside(s, EscapedBody(t));
  }

  lemma QuoteInside(s: string, body: string)
    ensures "'" + (s + ("'\\''" + body)) + "'" == "'" + s + "'\\'" + ("'" + body + "'")
  {
    assert "'\\''" == "'\\'" + "'";
  }

  lemma {:induction false} NoQuote(s: string)
    requires '\'' !in s
    ensures EscapedBody(s) == s
  {
    if s != "" {
      var n := |s| - 1;
      assert s[n] in s && s == s[..n] + [s[n]];
      NoQuote(s[..n]);
    }
  }

  /** What the dump of a complete configuration for a server runs: the server's own program
      with the values under their own keys, the password in its own variable. */
  lemma ServerDumpRuns(c: Backend.Config, file: string)
    requires "DatabaseType" in c && c["DatabaseType"] != "sqlite"
    requires "username" in c && c["username"] != "" && "host" in c && c["host"] != ""
    requires "dbname" in c && c["dbname"] != ""
    ensures var pass := if "password" in c then c["password"] else "";
            var port := if "port" in c && Stoi(c["port"]).Some? then Stoi(c["port"]).value else 0;
            var dump := Intended(DumpSettings(c), file);
            && (c["DatabaseType"] == "mysql" || c["DatabaseType"] == "mariadb" ==>
                  dump == Command([("MYSQL_PWD", pass)],
                                  ["mysqldump", "-h", c["host"]] + (if port > 0 then ["-P", ToString(port)] else [])
                                  + ["-u", c["username"], c["dbname"]],
                                  [file]))
            && (c["DatabaseType"] == "postgres" ==>
                  dump == Command([("PGPASSWORD", pass)],
                                  ["pg_dump", "-h", c["host"]] + (if port > 0 then ["-p", ToString(port)] else [])
                                  + ["-U", c["username"], c["dbname"]],
                                  [file]))
            && (!Backend.NamesServer(c["DatabaseType"]) ==>
                  dump == Command([], ["sqlite3", c["dbname"], ".dump"], [file]))
  {
    var p := DumpSettings(c);
    assert p == Backend.Wanted(Backend.NOTHING, c);
    ServerArgumentsAre(p, "-P", "-u");
    ServerArgumentsAre(p, "-p", "-U");
    FirstWord("mysqldump", p.host, if p.port > 0 then ["-P", ToString(p.port)] else [], ["-u", p.user, p.name]);
    FirstWord("pg_dump", p.host, if p.port > 0 then ["-p", ToString(p.port)] else [], ["-U", p.user, p.name]);
    assert |"mysql"| == 5 && |"mariadb"| == 7 && |"postgres"| == 8;
    hide ServerArguments, DumpSettings, ToString;
  }

  lemma ServerArgumentsAre(p: Backend.Params, portFlag: string, userFlag: string)
    requires p.host != "" && p.user != ""
    ensures ServerArguments(p, portFlag, userFlag)
            == ["-h", p.host] + (if p.port > 0 then [portFlag, ToString(p.port)] else []) + [userFlag, p.user, p.name]
  {
    hide ToString;
    assert [userFlag, p.user] + [p.name] == [userFlag, p.user, p.name];
  }

  lemma FirstWord(name: string, host: string, port: seq<string>, rest: seq<string>)
    ensures [name] + (["-h", host] + port + rest) == [name, "-h", host] + port + rest
  {
  }

  /** Every other configuration dumps the local file. */
  lemma LocalDumpRuns(c: Backend.Config, file: string)
    requires || ("DatabaseType" in c && c["DatabaseType"] == "sqlite")
             || "username" !in c || c["username"] == "" || "host" !in c || c["host"] == ""
             || "dbname" !in c || c["dbname"] == ""
    ensures var path := if "sqlite_path" in c then c["sqlite_path"] else "/etc/scastd/scastd.db";
            Intended(DumpSettings(c), file) == Command([], ["sqlite3", path, ".dump"], [file])
  {
    assert |"sqlite"| == 6 && |"mysql"| == 5 && |"mariadb"| == 7 && |"postgres"| == 8;
    hide ServerArguments;
  }

  // ----- The database that is dumped -----

  lemma SameSettings(w: Backend.Params, path: string, file: string)
    requires Backend.KindOf(w.dbType).Some?
    ensures var dumped := if w.dbType == "sqlite" || w.user == "" || w.host == "" || w.name == ""
                          then w.(dbType := "sqlite", name := path) else w;
            Intended(dumped, file) == Intended(Backend.Choose(w, path), file)
  {
    hide ServerArguments;
  }

  /** What the dump of an unknown type runs, and what the daemon's fallback would be. */
  lemma UnknownSettings(w: Backend.Params, path: string, file: string)
    requires Backend.KindOf(w.dbType).None?
    ensures Backend.Choose(w, path) == Backend.SqliteAt(path)
    ensures Intended(w, file) == Command([], ["sqlite3", w.name, ".dump"], [file])
    ensures Intended(Backend.SqliteAt(path), file) == Command([], ["sqlite3", path, ".dump"], [file])
    ensures Intended(w.(dbType := "sqlite", name := path), file) == Intended(Backend.SqliteAt(path), file)
  {
    hide ServerArguments;
    assert "sqlite" != "mysql" && "sqlite" != "mariadb" && "sqlite" != "postgres" by {
      assert |"sqlite"| == 6 && |"mysql"| == 5 && |"mariadb"| == 7 && |"postgres"| == 8;
    }
  }

  /** The dump is one of the database that the daemon uses when it starts with the same
      configuration, if and only if the type is known, or a credential is missing, or the
      database name happens to be the sqlite path. */
  lemma DumpsTheDaemonsDatabase(cfg: Backend.Config, file: string)
    ensures var w := Backend.Wanted(Backend.NOTHING, cfg);
            Intended(DumpSettings(cfg), file) == Intended(Backend.StartParams(cfg), file)
            <==> || Backend.KindOf(w.dbType).Some?
                 || w.user == "" || w.host == "" || w.name == ""
                 || w.name == Backend.GetString(cfg, "sqlite_path", Backend.DEFAULT_SQLITE_PATH)
  {
    var w := Backend.Wanted(Backend.NOTHING, cfg);
    var path := Backend.GetString(cfg, "sqlite_path", Backend.DEFAULT_SQLITE_PATH);
    if Backend.KindOf(w.dbType).Some? {
      SameSettings(w, path, file);
    } else {
      assert w.dbType != "sqlite";
      UnknownSettings(w, path, file);
      hide Intended, Backend.Choose, Backend.Wanted, Backend.KindOf;
      assert ["sqlite3", w.name, ".dump"][1] == w.name && ["sqlite3", path, ".dump"][1] == path;
    }
  }

  /** A misspelt type with complete credentials: the dump reads a local file named like the
      server's database. */
  lemma UnknownTypeDumpsElsewhere(file: string)
    ensures var cfg: Backend.Config :=
              map["DatabaseType" := "oracle", "username" := "u", "host" := "h", "dbname" := "d"];
            Intended(DumpSettings(cfg), file) != Intended(Backend.StartParams(cfg), file)
  {
    var cfg: Backend.Config := map["DatabaseType" := "oracle", "username" := "u", "host" := "h", "dbname" := "d"];
    assert "sqlite_path" !in cfg && |Backend.DEFAULT_SQLITE_PATH| > 1;
    DumpsTheDaemonsDatabase(cfg, file);
    hide Intended, DumpSettings, Backend.StartParams;
  }
}
