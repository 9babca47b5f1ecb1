/** How a POSIX shell reads a command line (XCU sections 2.2.1, 2.2.2 and 2.3 of
    POSIX.1-2017), as far as quoting by backslash and single quotes, words, blanks and
    output redirection go. Every other character with a meaning of its own makes the
    reading fail, so a command that is read contains none of them unquoted. */
module Shell {
  import opened Text

  datatype Cell = Cell(c: char, quoted: bool)

  datatype Token = Word(cells: seq<Cell>) | Greater

  datatype Lexed = Tokens(ts: seq<Token>) | Unterminated | Unsupported

  predicate IsNameStart(c: char) { 'a' <= c <= 'z' || 'A' <= c <= 'Z' || c == '_' }

  /** Characters without a meaning of their own in an unquoted word. */
  predicate IsOrdinary(c: char) {
    IsNameStart(c) || IsDigit(c) || c == '-' || c == '.' || c == '/' || c == '=' || c == ':' || c == ','
  }

  predicate IsBlankChar(c: char) { c == ' ' || c == '\t' }

  /** An unquoted number right before a redirection would name a file descriptor. */
  predicate IsIoNumber(w: Option<seq<Cell>>) {
    w.Some? && w.value != [] && forall cell <- w.value :: IsDigit(cell.c) && !cell.quoted
  }

  /** Puts a token in front. */
  function Push(t: Token, rest: Lexed): Lexed {
    match rest
    case Tokens(ts) => Tokens([t] + ts)
    case _ => rest
  }

  /** Ends the word read so far, if there is one. */
  function Emit(w: Option<seq<Cell>>, rest: Lexed): Lexed {
    if w.Some? then Push(Word(w.value), rest) else rest
  }

  function Add(w: Option<seq<Cell>>, cells: seq<Cell>): Option<seq<Cell>> {
    Some((if w.Some? then w.value else []) + cells)
  }

  /** Token recognition, one character at a time. */
  function Read(s: string, w: Option<seq<Cell>>, inQuotes: bool): Lexed
    decreases s
  {
    if s == "" then
      if inQuotes then Unterminated else Emit(w, Tokens([]))
    else
      var c := s[0];
      if inQuotes then
        if c == '\'' then Read(s[1..], w, false) else Read(s[1..], Add(w, [Cell(c, true)]), true)
      else if c == '\'' then Read(s[1..], Add(w, []), true)
      else if c == '\\' then
        if |s| == 1 then Unsupported
        else if s[1] == '\n' then Read(s[2..], w, false)
        else Read(s[2..], Add(w, [Cell(s[1], true)]), false)
      else if IsBlankChar(c) then Emit(w, Read(s[1..], None, false))
      else if c == '>' then
        if IsIoNumber(w) || (|s| > 1 && s[1] in ['>', '&', '|']) then Unsupported
        else Emit(w, Push(Greater, Read(s[1..], None, false)))
      else if IsOrdinary(c) then Read(s[1..], Add(w, [Cell(c, false)]), false)
      else Unsupported
  }

  // ----- Simple commands -----

  /** Quote removal. */
  function Chars(cells: seq<Cell>): string {
    if cells == [] then "" else [cells[0].c] + Chars(cells[1..])
  }

  /** Position of the equals sign of an assignment word: a name before it, all unquoted. */
  function NameLength(cells: seq<Cell>, k: nat): (n: Option<nat>)
    requires k <= |cells|
    ensures n.Some? ==> n.value < |cells|
    decreases |cells| - k
  {
    if k == |cells| || cells[k].quoted then None
    else if cells[k].c == '=' then (if k == 0 then None else Some(k))
    else if IsNameStart(cells[k].c) || (k > 0 && IsDigit(cells[k].c)) then NameLength(cells, k + 1)
    else None
  }

  /** A simple command: variable assignments, the words of the command, and the files
      its output is redirected to. */
  datatype Command = Command(env: seq<(string, string)>, argv: seq<string>, targets: seq<string>)

  /** The words and redirections of a command from its name on. */
  function Arguments(ts: seq<Token>): Option<Command> {
    if ts == [] then Some(Command([], [], []))
    else if ts[0].Word? then
      var rest := Arguments(ts[1..]);
      if rest.None? then None else Some(rest.value.(argv := [Chars(ts[0].cells)] + rest.value.argv))
    else if |ts| > 1 && ts[1].Word? then
      var rest := Arguments(ts[2..]);
      if rest.None? then None else Some(rest.value.(targets := [Chars(ts[1].cells)] + rest.value.targets))
    else None
  }

  /** A simple command: assignments count only before the command name. */
  function Parse(ts: seq<Token>): Option<Command> {
    if ts != [] && ts[0].Word? && NameLength(ts[0].cells, 0).Some? then
      var cells, n := ts[0].cells, NameLength(ts[0].cells, 0).value;
      var rest := Parse(ts[1..]);
      if rest.None? then None
      else Some(rest.value.(env := [(Chars(cells[..n]), Chars(cells[n + 1..]))] + rest.value.env))
    else Arguments(ts)
  }

  /** What a shell makes of a command line; None when it cannot be read. */
  function Meaning(line: string): Option<Command> {
    match Read(line, None, false)
    case Tokens(ts) => Parse(ts)
    case _ => None
  }
}
