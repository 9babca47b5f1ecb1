/** The configuration file: lines of a key and a value, with comments. */
module ConfigFile {
  import opened Text

  function FirstLine(content: string): (line: string)
    ensures line <= content
  {
    if content == "" || content[0] == '\n' then "" else [content[0]] + FirstLine(content[1..])
  }

  /** What `getline` leaves behind. */
  function OtherLines(content: string): (rest: string)
    ensures content != "" ==> |rest| < |content|
  {
    var n := |FirstLine(content)|;
    if n < |content| then content[n + 1..] else ""
  }

  /** The lines of a file; the last one may lack its newline. */
  function LinesOf(content: string): seq<string>
    decreases |content|
  {
    if content == "" then [] else [FirstLine(content)] + LinesOf(OtherLines(content))
  }

  function BeforeHash(line: string): string {
    if line == "" || line[0] == '#' then "" else [line[0]] + BeforeHash(line[1..])
  }

  /** The characters up to the first white space. */
  function Word(s: string): (w: string)
    ensures w <= s
  {
    if s == "" || IsSpace(s[0]) then "" else [s[0]] + Word(s[1..])
  }

  /** The first two words in front of a comment. The value may be missing. */
  function Setting(line: string): Option<(string, string)> {
    var s := SkipSpaces(BeforeHash(line));
    var key := Word(s);
    if key == "" then None else Some((key, Word(SkipSpaces(s[|key|..]))))
  }

  /** The value that the last line for this key gives. */
  function LastValue(lines: seq<string>, key: string): Option<string> {
    if lines == [] then None
    else
      var last := Setting(lines[|lines| - 1]);
      if last.Some? && last.value.0 == key then Some(last.value.1) else LastValue(lines[..|lines| - 1], key)
  }

  /** Whichever comes first. */
  function Or(a: Option<string>, b: Option<string>): Option<string> { if a.Some? then a else b }

  /** The values after these lines, each line's setting replacing earlier ones: every key
      has the value of its last line, or else its earlier value. */
  function FromLines(values: map<string, string>, lines: seq<string>): (r: map<string, string>)
    ensures forall key :: Lookup(r, key) == Or(LastValue(lines, key), Lookup(values, key))
  {
    if lines == [] then values
    else
      var before := FromLines(values, lines[..|lines| - 1]);
      var s := Setting(lines[|lines| - 1]);
      if s.Some? then before[s.value.0 := s.value.1] else before
  }

  lemma OneMoreLine(values: map<string, string>, done: seq<string>, line: string)
    ensures var before, s := FromLines(values, done), Setting(line);
            FromLines(values, done + [line]) == if s.Some? then before[s.value.0 := s.value.1] else before
  {
    assert (done + [line])[..|done|] == done;
    hide Setting, LastValue, Lookup, Or;
  }

  // ----- Reading back -----

  predicate IsWord(s: string) { s != "" && forall k :: 0 <= k < |s| ==> !IsSpace(s[k]) && s[k] != '#' }

  predicate AllSpaces(s: string) { forall k :: 0 <= k < |s| ==> IsSpace(s[k]) }

  /** What may follow a word on its line. */
  predicate EndsWord(tail: string) { tail == "" || IsSpace(tail[0]) || tail[0] == '#' }

  lemma {:induction false} NoHash(a: string, tail: string)
    requires '#' !in a
    ensures BeforeHash(a + tail) == a + BeforeHash(tail)
  {
    if a == "" {
      assert a + tail == tail;
    } else {
      assert (a + tail)[1..] == a[1..] + tail;
      NoHash(a[1..], tail);
    }
  }

  lemma {:induction false} Skipped(a: string, s: string)
    requires AllSpaces(a) && (s == "" || !IsSpace(s[0]))
    ensures SkipSpaces(a + s) == s
  {
    if a == "" {
      assert a + s == s;
    } else {
      assert (a + s)[1..] == a[1..] + s;
      Skipped(a[1..], s);
    }
  }

  lemma {:induction false} WordStops(w: string, s: string)
    requires (forall k :: 0 <= k < |w| ==> !IsSpace(w[k])) && (s == "" || IsSpace(s[0]))
    ensures Word(w + s) == w
  {
    if w == "" {
      assert w + s == s;
    } else {
      assert (w + s)[1..] == w[1..] + s;
      WordStops(w[1..], s);
    }
  }

  /** A line with a key and a value gives that setting, whatever the spacing, and whatever
      words or comment follow. */
  lemma LineReads(indent: string, key: string, gap: string, value: string, tail: string)
    requires AllSpaces(indent) && IsWord(key) && gap != "" && AllSpaces(gap) && IsWord(value) && EndsWord(tail)
    ensures Setting(indent + (key + (gap + (value + tail)))) == Some((key, value))
  {
    var t := BeforeHash(tail);
    NoHash(value, tail);
    NoHash(gap, value + tail);
    NoHash(key, gap + (value + tail));
    NoHash(indent, key + (gap + (value + tail)));
    hide BeforeHash, SkipSpaces, Word;
    WordThenTail(value, tail);
    Skipped(gap, value + t);
    WordStops(key, gap + (value + t));
    Skipped(indent, key + (gap + (value + t)));
    assert (key + (gap + (value + t)))[|key|..] == gap + (value + t);
  }

  lemma WordThenTail(value: string, tail: string)
    requires IsWord(value) && EndsWord(tail)
    ensures Word(value + BeforeHash(tail)) == value
  {
    var t := BeforeHash(tail);
    assert t == "" || t[0] == tail[0];
    WordStops(value, t);
  }

  /** A key without a value is set to the empty text. */
  lemma KeyAlone(indent: string, key: string, gap: string, comment: string)
    requires AllSpaces(indent) && IsWord(key) && AllSpaces(gap) && (comment == "" || comment[0] == '#')
    ensures Setting(indent + (key + (gap + comment))) == Some((key, ""))
  {
    NoHash(gap, comment);
    NoHash(key, gap + comment);
    NoHash(indent, key + (gap + comment));
    assert BeforeHash(comment) == "" && gap + "" == gap;
    hide BeforeHash, SkipSpaces;
    Skipped(indent, key + gap);
    WordStops(key, gap);
    assert (key + gap)[|key|..] == gap;
    Skipped(gap, "");
    assert Word("") == "";
  }

  /** Blanks, tabs and the other white space separate words; anything but these and the
      comment sign belongs to a word. */
  lemma WordsByCode(s: string)
    ensures IsWord(s) <==> s != "" && forall k :: 0 <= k < |s| ==> !IsBlankCode(s[k]) && s[k] as int != 35
    ensures AllSpaces(s) <==> forall k :: 0 <= k < |s| ==> IsBlankCode(s[k])
  {
  }

  /** Blank lines and lines that are only a comment set nothing. */
  lemma CommentIsIgnored(indent: string, comment: string)
    requires AllSpaces(indent) && (comment == "" || comment[0] == '#')
    ensures Setting(indent + comment) == None
  {
    NoHash(indent, comment);
    assert indent + BeforeHash(comment) == indent + "";
    Skipped(indent, "");
  }

  /** A file with these lines. */
  function TextOf(lines: seq<string>): string {
    if lines == [] then "" else lines[0] + ("\n" + TextOf(lines[1..]))
  }

  lemma {:induction false} LineEnds(line: string, rest: string)
    requires NoNewline(line)
    ensures FirstLine(line + ("\n" + rest)) == line
  {
    if line == "" {
      assert line + ("\n" + rest) == "\n" + rest;
    } else {
      assert (line + ("\n" + rest))[1..] == line[1..] + ("\n" + rest);
      LineEnds(line[1..], rest);
    }
  }

  /** Lines are cut at newlines, and an end without a newline is a line too. */
  lemma LinesAreCut(line: string, rest: string)
    requires NoNewline(line)
    ensures LinesOf(line + ("\n" + rest)) == [line] + LinesOf(rest)
    ensures LinesOf(line) == if line == "" then [] else [line]
  {
    BehindNewline(line, rest);
    OnlyLine(line);
    hide FirstLine, OtherLines, NoNewline;
    if line != "" {
      assert LinesOf(line) == [line] + LinesOf("");
    }
  }

  lemma BehindNewline(line: string, rest: string)
    requires NoNewline(line)
    ensures FirstLine(line + ("\n" + rest)) == line && OtherLines(line + ("\n" + rest)) == rest
  {
    LineEnds(line, rest);
    hide FirstLine, NoNewline;
    assert (line + ("\n" + rest))[|line| + 1..] == rest;
  }

  lemma {:induction false} OnlyLine(line: string)
    requires NoNewline(line)
    ensures FirstLine(line) == line && OtherLines(line) == ""
  {
    if line != "" {
      OnlyLine(line[1..]);
    }
  }

  lemma {:induction false} LinesReadBack(lines: seq<string>)
    requires forall l <- lines :: NoNewline(l)
    ensures LinesOf(TextOf(lines)) == lines
  {
    if lines != [] {
      var rest := TextOf(lines[1..]);
      LinesAreCut(lines[0], rest);
      LinesReadBack(lines[1..]);
    }
  }

  /** A setting printed on a line of its own. */
  function Printed(setting: (string, string)): string { setting.0 + " " + setting.1 }

  function PrintedAll(settings: seq<(string, string)>): (lines: seq<string>)
    ensures |lines| == |settings| && forall k :: 0 <= k < |lines| ==> lines[k] == Printed(settings[k])
  {
    seq(|settings|, k requires 0 <= k < |settings| => Printed(settings[k]))
  }

  predicate Printable(setting: (string, string)) { IsWord(setting.0) && IsWord(setting.1) }

  lemma PrintedReads(s: (string, string))
    requires Printable(s)
    ensures Setting(Printed(s)) == Some(s) && NoNewline(Printed(s))
  {
    LineReads("", s.0, " ", s.1, "");
    assert s.0 + " " + s.1 == "" + (s.0 + (" " + (s.1 + "")));
  }

  /** The value that the last setting for this key has. */
  function LastOf(settings: seq<(string, string)>, key: string): Option<string> {
    if settings == [] then None
    else if settings[|settings| - 1].0 == key then Some(settings[|settings| - 1].1)
    else LastOf(settings[..|settings| - 1], key)
  }

  lemma PrintedLast(settings: seq<(string, string)>)
    requires settings != []
    ensures var n := |settings| - 1;
            PrintedAll(settings) == PrintedAll(settings[..n]) + [Printed(settings[n])]
  {
    hide Printed;
  }

  lemma LastLineDecides(lines: seq<string>, line: string, key: string)
    ensures LastValue(lines + [line], key)
            == var s := Setting(line);
               if s.Some? && s.value.0 == key then Some(s.value.1) else LastValue(lines, key)
  {
    assert (lines + [line])[..|lines|] == lines;
    hide Setting;
  }

  lemma {:induction false} PrintedValues(settings: seq<(string, string)>, key: string)
    requires forall s <- settings :: Printable(s)
    ensures LastValue(PrintedAll(settings), key) == LastOf(settings, key)
  {
    if settings != [] {
      var n := |settings| - 1;
      hide Printable, Setting, LastValue, Printed;
      assert settings[n] in settings && forall s <- settings[..n] :: s in settings;
      PrintedReads(settings[n]);
      PrintedValues(settings[..n], key);
      PrintedLast(settings);
      LastLineDecides(PrintedAll(settings[..n]), Printed(settings[n]), key);
    }
  }

  /** A file of printed settings means those settings, the last one for a key winning. */
  lemma FileReadsBack(settings: seq<(string, string)>, key: string)
    requires forall s <- settings :: Printable(s)
    ensures LastValue(LinesOf(TextOf(PrintedAll(settings))), key) == LastOf(settings, key)
  {
    var lines := PrintedAll(settings);
    forall l | l in lines ensures NoNewline(l) {
      var k :| 0 <= k < |lines| && l == lines[k];
      assert settings[k] in settings;
      PrintedReads(settings[k]);
    }
    LinesReadBack(lines);
    PrintedValues(settings, key);
  }
}
