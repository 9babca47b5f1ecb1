/** The line format of the status log, and how a reader of flat JSON objects of strings
    (RFC 8259, sections 4 and 7, without white space between tokens) reads it. */
module StatusFormat {
  import opened Text

  datatype Record = Record(timestamp: string, action: string, result: string, metadata: string)

  // ----- Writing -----

  function EscapeChar(c: char): string {
    match c
    case '\\' => "\\\\"
    case '"' => "\\\""
    case '\n' => "\\n"
    case '\r' => "\\r"
    case '\t' => "\\t"
    case _ => [c]
  }

  function Escaped(s: string): string { MapChars(s, EscapeChar) }

  method Escape(s: string) returns (out: string)
    ensures out == Escaped(s)
  {
    out := "";
    for k := 0 to |s|
      invariant out == Escaped(s[..k])
    {
      assert s[..k + 1][..k] == s[..k];
      var c := s[k];
      match c
      case '\\' => out := out + "\\\\";
      case '"' => out := out + "\\\"";
      case '\n' => out := out + "\\n";
      case '\r' => out := out + "\\r";
      case '\t' => out := out + "\\t";
      case _ => out := out + [c];
    }
    assert s[..|s|] == s;
  }

  const OPEN := "{\"timestamp\":\""
  const ACTION := ",\"action\":\""
  const RESULT := ",\"result\":\""
  const METADATA := ",\"metadata\":\""

  /** One record, without its newline. The timestamp is not escaped. */
  function Line(r: Record): string {
    OPEN + (r.timestamp + "\"" + (ACTION + (Escaped(r.action) + "\"" + (RESULT + (Escaped(r.result) + "\""
    + (METADATA + (Escaped(r.metadata) + "\"" + "}")))))))
  }

  // ----- Reading -----

  predicate IsControl(c: char) { c < ' ' }

  function Unescape(c: char): Option<char> {
    match c
    case '"' => Some('"')
    case '\\' => Some('\\')
    case '/' => Some('/')
    case 'b' => Some(8 as char)
    case 'f' => Some(12 as char)
    case 'n' => Some('\n')
    case 'r' => Some('\r')
    case 't' => Some('\t')
    case _ => None
  }

  function Prepend(c: char, r: Option<(string, string)>): Option<(string, string)> {
    match r
    case None => None
    case Some((s, rest)) => Some(([c] + s, rest))
  }

  /** A string up to its closing quote, and what follows the quote. A control character
      that is not escaped makes it ill formed. */
  function ParseString(s: string): (r: Option<(string, string)>)
    ensures r.Some? ==> |r.value.1| < |s|
  {
    if s == "" then None
    else if s[0] == '"' then Some(("", s[1..]))
    else if s[0] == '\\' then
      if |s| > 1 && Unescape(s[1]).Some? then Prepend(Unescape(s[1]).value, ParseString(s[2..])) else None
    else if IsControl(s[0]) then None
    else Prepend(s[0], ParseString(s[1..]))
  }

  function ParseQuoted(s: string): (r: Option<(string, string)>)
    ensures r.Some? ==> |r.value.1| < |s|
  {
    if s != "" && s[0] == '"' then ParseString(s[1..]) else None
  }

  /** A name, a colon and a value, and what follows them. */
  function ParseMember(s: string): (r: Option<((string, string), string)>)
    ensures r.Some? ==> |r.value.1| < |s|
  {
    match ParseQuoted(s)
    case None => None
    case Some((name, s1)) =>
      if s1 == "" || s1[0] != ':' then None
      else
        match ParseQuoted(s1[1..])
        case None => None
        case Some((value, s2)) => Some(((name, value), s2))
  }

  /** Members between commas, up to the closing brace at the very end. */
  function ParseMembers(s: string): Option<seq<(string, string)>>
    decreases |s|
  {
    match ParseMember(s)
    case None => None
    case Some((m, rest)) =>
      if rest == "}" then Some([m])
      else if rest == "" || rest[0] != ',' then None
      else
        match ParseMembers(rest[1..])
        case None => None
        case Some(more) => Some([m] + more)
  }

  /** The members of a flat object of strings. */
  function ReadObject(line: string): Option<seq<(string, string)>> {
    if line == "{}" then Some([])
    else if line == "" || line[0] != '{' then None
    else ParseMembers(line[1..])
  }

  function Member(members: seq<(string, string)>, name: string): Option<string> {
    if members == [] then None
    else if members[0].0 == name then Some(members[0].1)
    else Member(members[1..], name)
  }

  /** A record has the four documented members. */
  function RecordOfMembers(members: seq<(string, string)>): Option<Record> {
    var timestamp, action := Member(members, "timestamp"), Member(members, "action");
    var result, metadata := Member(members, "result"), Member(members, "metadata");
    if timestamp.None? || action.None? || result.None? || metadata.None? then None
    else Some(Record(timestamp.value, action.value, result.value, metadata.value))
  }

  function ParseRecord(line: string): Option<Record> {
    match ReadObject(line)
    case None => None
    case Some(members) => RecordOfMembers(members)
  }

  // ----- Reading what was written -----

  /** Every control character but the three that the writer escapes is unreadable. */
  predicate ReadableChar(c: char) { !IsControl(c) || c == '\n' || c == '\r' || c == '\t' }

  predicate Readable(s: string) { forall c <- s :: ReadableChar(c) }

  /** Readable text by code points. */
  lemma ReadableCodes(s: string)
    ensures Readable(s) <==>
            forall k :: 0 <= k < |s| ==> s[k] as int >= 32 || s[k] as int == 9 || s[k] as int == 10 || s[k] as int == 13
  {
    assert forall k :: 0 <= k < |s| ==> s[k] in s;
  }

  /** Text that needs no escaping, as timestamps are. */
  predicate IsStamp(s: string) { forall c <- s :: !IsControl(c) && c != '"' && c != '\\' }

  lemma EscapedCharParses(c: char, rest: string)
    ensures ParseString(EscapeChar(c) + rest) == if ReadableChar(c) then Prepend(c, ParseString(rest)) else None
  {
    var e := EscapeChar(c) + rest;
    if |EscapeChar(c)| == 2 {
      assert e[2..] == rest;
    } else {
      assert e[1..] == rest;
    }
  }

  /** An escaped string reads back exactly when it was readable text. */
  lemma {:induction false} EscapedReadsBack(s: string, rest: string)
    ensures ParseString(Escaped(s) + ("\"" + rest)) == if Readable(s) then Some((s, rest)) else None
    decreases s
  {
    if s == "" {
      assert Escaped(s) + ("\"" + rest) == "\"" + rest;
      assert ("\"" + rest)[1..] == rest;
    } else {
      var c, tail := s[0], s[1..];
      assert s == [c] + tail;
      MapCharsCons(c, tail, EscapeChar);
      EscapedReadsBack(tail, rest);
      EscapedCharParses(c, Escaped(tail) + ("\"" + rest));
      assert Escaped(s) + ("\"" + rest) == EscapeChar(c) + (Escaped(tail) + ("\"" + rest));
      assert Readable(s) <==> ReadableChar(c) && Readable(tail);
    }
  }

  lemma {:induction false} StampIsEscaped(s: string)
    requires IsStamp(s)
    ensures Escaped(s) == s && Readable(s)
  {
    if s != "" {
      StampIsEscaped(s[..|s| - 1]);
      assert s[|s| - 1] in s;
      assert s == s[..|s| - 1] + [s[|s| - 1]];
    }
  }

  /** One member as it is written, and what follows it. */
  function MemberText(name: string, value: string, rest: string): string {
    "\"" + (name + ("\"" + (":" + ("\"" + (value + ("\"" + rest))))))
  }

  lemma QuotedReadsBack(s: string, rest: string)
    ensures ParseQuoted("\"" + (Escaped(s) + ("\"" + rest))) == if Readable(s) then Some((s, rest)) else None
  {
    var t := "\"" + (Escaped(s) + ("\"" + rest));
    assert t[1..] == Escaped(s) + ("\"" + rest);
    EscapedReadsBack(s, rest);
  }

  lemma MemberReadsBack(name: string, s: string, rest: string)
    requires IsStamp(name)
    ensures ParseMember(MemberText(name, Escaped(s), rest))
            == if Readable(s) then Some(((name, s), rest)) else None
  {
    var s1 := ":" + ("\"" + (Escaped(s) + ("\"" + rest)));
    StampIsEscaped(name);
    hide Escaped, Readable, ParseQuoted;
    QuotedReadsBack(name, s1);
    assert s1[0] == ':' && s1[1..] == "\"" + (Escaped(s) + ("\"" + rest));
    QuotedReadsBack(s, rest);
  }

  lemma LastMemberReads(name: string, s: string)
    requires IsStamp(name)
    ensures ParseMembers(MemberText(name, Escaped(s), "}")) == if Readable(s) then Some([(name, s)]) else None
  {
    MemberReadsBack(name, s, "}");
    hide Escaped, Readable, ParseMember, MemberText;
  }

  lemma NextMemberReads(name: string, s: string, more: string)
    requires IsStamp(name)
    ensures var rest := ParseMembers(more);
            ParseMembers(MemberText(name, Escaped(s), "," + more))
            == if Readable(s) && rest.Some? then Some([(name, s)] + rest.value) else None
  {
    MemberReadsBack(name, s, "," + more);
    assert ("," + more)[0] == ',' && ("," + more)[1..] == more && "," + more != "}" by {
      assert "}"[0] == '}';
    }
    hide Escaped, Readable, ParseMember, MemberText;
  }

  predicate ReadableRecord(r: Record) { Readable(r.action) && Readable(r.result) && Readable(r.metadata) }

  lemma NamesAreStamps()
    ensures IsStamp("timestamp") && IsStamp("action") && IsStamp("result") && IsStamp("metadata")
  {
  }

  lemma Nest(start: string, name: string, value: string, rest: string)
    ensures (start + ("\"" + (name + ("\"" + (":" + "\""))))) + (value + "\"" + rest)
            == start + MemberText(name, value, rest)
  {
    var tail := value + ("\"" + rest);
    assert value + "\"" + rest == tail;
    assert ("\"" + (name + ("\"" + (":" + "\"")))) + tail == MemberText(name, value, rest);
  }

  /** What the constant texts of the writer say. */
  lemma ConstantTexts()
    ensures OPEN == "{" + ("\"" + ("timestamp" + ("\"" + (":" + "\""))))
    ensures ACTION == "," + ("\"" + ("action" + ("\"" + (":" + "\""))))
    ensures RESULT == "," + ("\"" + ("result" + ("\"" + (":" + "\""))))
    ensures METADATA == "," + ("\"" + ("metadata" + ("\"" + (":" + "\""))))
  {
  }

  lemma LineIsMembers(r: Record)
    ensures Line(r) == "{" + MemberText("timestamp", r.timestamp,
                       "," + MemberText("action", Escaped(r.action),
                       "," + MemberText("result", Escaped(r.result),
                       "," + MemberText("metadata", Escaped(r.metadata), "}"))))
  {
    ConstantTexts();
    hide OPEN, ACTION, RESULT, METADATA, MemberText, Escaped;
    var m := "," + MemberText("metadata", Escaped(r.metadata), "}");
    var n := "," + MemberText("result", Escaped(r.result), m);
    var a := "," + MemberText("action", Escaped(r.action), n);
    Nest(",", "metadata", Escaped(r.metadata), "}");
    Nest(",", "result", Escaped(r.result), m);
    Nest(",", "action", Escaped(r.action), n);
    Nest("{", "timestamp", r.timestamp, a);
  }

  function MembersOf(r: Record): seq<(string, string)> {
    [("timestamp", r.timestamp), ("action", r.action), ("result", r.result), ("metadata", r.metadata)]
  }

  lemma LastTwoRead(n3: string, v3: string, n4: string, v4: string)
    requires IsStamp(n3) && IsStamp(n4)
    ensures ParseMembers(MemberText(n3, Escaped(v3), "," + MemberText(n4, Escaped(v4), "}")))
            == if Readable(v3) && Readable(v4) then Some([(n3, v3), (n4, v4)]) else None
  {
    hide MemberText, Escaped, Readable, ParseMembers, IsStamp;
    LastMemberReads(n4, v4);
    NextMemberReads(n3, v3, MemberText(n4, Escaped(v4), "}"));
    assert [(n3, v3)] + [(n4, v4)] == [(n3, v3), (n4, v4)];
  }

  lemma FirstTwoRead(n1: string, v1: string, n2: string, v2: string, more: string)
    requires IsStamp(n1) && IsStamp(n2)
    ensures var rest := ParseMembers(more);
            ParseMembers(MemberText(n1, Escaped(v1), "," + MemberText(n2, Escaped(v2), "," + more)))
            == if Readable(v1) && Readable(v2) && rest.Some? then Some([(n1, v1), (n2, v2)] + rest.value) else None
  {
    hide MemberText, Escaped, Readable, ParseMembers, IsStamp;
    NextMemberReads(n2, v2, more);
    NextMemberReads(n1, v1, MemberText(n2, Escaped(v2), "," + more));
    var rest := ParseMembers(more);
    if rest.Some? {
      assert [(n1, v1)] + ([(n2, v2)] + rest.value) == [(n1, v1), (n2, v2)] + rest.value;
    }
  }

  lemma FourMembersRead(r: Record)
    requires IsStamp(r.timestamp)
    ensures ParseMembers(MemberText("timestamp", Escaped(r.timestamp),
                   "," + MemberText("action", Escaped(r.action),
                   "," + MemberText("result", Escaped(r.result),
                   "," + MemberText("metadata", Escaped(r.metadata), "}")))))
            == if ReadableRecord(r) then Some(MembersOf(r)) else None
  {
    StampIsEscaped(r.timestamp);
    NamesAreStamps();
    hide MemberText, Escaped, Readable, ParseMembers, IsStamp;
    var more := MemberText("result", Escaped(r.result), "," + MemberText("metadata", Escaped(r.metadata), "}"));
    LastTwoRead("result", r.result, "metadata", r.metadata);
    FirstTwoRead("timestamp", r.timestamp, "action", r.action, more);
    assert [("timestamp", r.timestamp), ("action", r.action)] + [("result", r.result), ("metadata", r.metadata)]
           == MembersOf(r);
  }

  lemma ObjectReads(s: string)
    requires s != "" && s[0] == '"'
    ensures ReadObject("{" + s) == ParseMembers(s)
  {
    assert ("{" + s)[1..] == s && ("{" + s)[1] == '"';
    assert "{}"[1] == '}';
    hide ParseMembers;
  }

  /** A line reads as an object of the four members, under their documented names and in
      this order, exactly when its three texts were readable; otherwise it does not read. */
  lemma LineReadsAsMembers(r: Record)
    requires IsStamp(r.timestamp)
    ensures ReadObject(Line(r))
            == if Readable(r.action) && Readable(r.result) && Readable(r.metadata)
               then Some([("timestamp", r.timestamp), ("action", r.action), ("result", r.result),
                          ("metadata", r.metadata)])
               else None
  {
    LineIsMembers(r);
    StampIsEscaped(r.timestamp);
    FourMembersRead(r);
    hide Line, MemberText, Escaped, Readable, ParseMembers, IsStamp;
    var rest := "," + MemberText("action", Escaped(r.action),
                "," + MemberText("result", Escaped(r.result),
                "," + MemberText("metadata", Escaped(r.metadata), "}")));
    MemberTextStarts("timestamp", r.timestamp, rest);
    ObjectReads(MemberText("timestamp", r.timestamp, rest));
  }

  lemma MemberTextStarts(name: string, value: string, rest: string)
    ensures MemberText(name, value, rest) != "" && MemberText(name, value, rest)[0] == '"'
  {
  }

  lemma FirstMember(name: string, value: string, more: seq<(string, string)>, wanted: string)
    ensures Member([(name, value)] + more, wanted) == if name == wanted then Some(value) else Member(more, wanted)
  {
    assert ([(name, value)] + more)[1..] == more;
  }

  lemma NamesDiffer()
    ensures "timestamp" != "action" && "timestamp" != "result" && "timestamp" != "metadata"
    ensures "action" != "result" && "action" != "metadata" && "result" != "metadata"
  {
    assert "timestamp"[0] == 't' && "action"[0] == 'a' && "result"[0] == 'r' && "metadata"[0] == 'm';
  }

  lemma FourMembers(r: Record)
    ensures RecordOfMembers(MembersOf(r)) == Some(r)
  {
    NamesDiffer();
    var m4 := [("metadata", r.metadata)];
    var m3 := [("result", r.result)] + m4;
    var m2 := [("action", r.action)] + m3;
    assert MembersOf(r) == [("timestamp", r.timestamp)] + m2 && m4 == m4 + [];
    hide Member;
    forall wanted
      ensures Member(MembersOf(r), wanted)
              == if "timestamp" == wanted then Some(r.timestamp) else if "action" == wanted then Some(r.action)
                 else if "result" == wanted then Some(r.result) else if "metadata" == wanted then Some(r.metadata)
                 else Member([], wanted)
    {
      FirstMember("timestamp", r.timestamp, m2, wanted);
      FirstMember("action", r.action, m3, wanted);
      FirstMember("result", r.result, m4, wanted);
      FirstMember("metadata", r.metadata, [], wanted);
    }
  }

  /** A record reads back exactly when its three texts were readable. */
  lemma RecordReadsBack(r: Record)
    requires IsStamp(r.timestamp)
    ensures ParseRecord(Line(r)) == if ReadableRecord(r) then Some(r) else None
  {
    LineReadsAsMembers(r);
    FourMembers(r);
    hide Line, ReadObject, RecordOfMembers, ReadableRecord;
  }

  /** The escapes by which the three control characters, the quote and the backslash are
      written and read. */
  lemma ShortEscapes(c: char)
    ensures Escaped("\n") == "\\n" && Escaped("\r") == "\\r" && Escaped("\t") == "\\t"
    ensures Escaped("\"") == "\\\"" && Escaped("\\") == "\\\\"
    ensures c !in "\n\r\t\"\\" ==> Escaped([c]) == [c]
    ensures Unescape('n') == Some('\n') && Unescape('r') == Some('\r') && Unescape('t') == Some('\t')
    ensures Unescape('"') == Some('"') && Unescape('\\') == Some('\\')
  {
    OneEscaped('\n');
    OneEscaped('\r');
    OneEscaped('\t');
    OneEscaped('"');
    OneEscaped('\\');
    OneEscaped(c);
    hide Escaped;
    var five := "\n\r\t\"\\";
    assert five[0] == '\n' && five[1] == '\r' && five[2] == '\t' && five[3] == '"' && five[4] == '\\';
  }

  lemma OneEscaped(c: char)
    ensures Escaped([c]) == EscapeChar(c)
  {
    MapCharsCons(c, "", EscapeChar);
    assert [c] + "" == [c] && EscapeChar(c) + "" == EscapeChar(c);
  }

  // ----- Lines and files -----

  /** The complete lines of a file. */
  function Lines(content: string): seq<string> {
    LinesFrom("", content)
  }

  function LinesFrom(line: string, content: string): seq<string>
    decreases content
  {
    if content == "" then []
    else if content[0] == '\n' then [line] + LinesFrom("", content[1..])
    else LinesFrom(line + [content[0]], content[1..])
  }

  lemma {:induction false} LinesFromLine(line: string, more: string, rest: string)
    requires NoNewline(more)
    ensures LinesFrom(line, more + ("\n" + rest)) == [line + more] + Lines(rest)
    decreases more
  {
    var content := more + ("\n" + rest);
    if more == "" {
      assert content == "\n" + rest && content[1..] == rest && line + more == line;
    } else {
      assert content[1..] == more[1..] + ("\n" + rest);
      LinesFromLine(line + [more[0]], more[1..], rest);
      assert line + [more[0]] + more[1..] == line + more;
    }
  }

  lemma {:induction false} EscapedHasNoNewline(s: string)
    ensures NoNewline(Escaped(s))
  {
    if s != "" {
      EscapedHasNoNewline(s[..|s| - 1]);
    }
  }

  lemma NoNewlineConcat(a: string, b: string)
    ensures NoNewline(a + b) <==> NoNewline(a) && NoNewline(b)
  {
  }

  lemma PlainMembers()
    ensures NoNewline(OPEN) && NoNewline(ACTION) && NoNewline(RESULT) && NoNewline(METADATA)
    ensures NoNewline("\"") && NoNewline("}")
  {
  }

  /** One member, and what follows it. */
  lemma MemberOnOneLine(start: string, value: string, rest: string)
    requires NoNewline(start) && NoNewline(value) && NoNewline(rest) && NoNewline("\"")
    ensures NoNewline(start + (value + "\"" + rest))
  {
    NoNewlineConcat(value, "\"");
    NoNewlineConcat(value + "\"", rest);
    NoNewlineConcat(start, value + "\"" + rest);
    hide NoNewline;
  }

  lemma LineHasNoNewline(r: Record)
    requires IsStamp(r.timestamp)
    ensures NoNewline(Line(r))
  {
    EscapedHasNoNewline(r.action);
    EscapedHasNoNewline(r.result);
    EscapedHasNoNewline(r.metadata);
    assert NoNewline(r.timestamp);
    PlainMembers();
    hide NoNewline, Escaped, OPEN, ACTION, RESULT, METADATA;
    MemberOnOneLine(METADATA, Escaped(r.metadata), "}");
    var last := METADATA + (Escaped(r.metadata) + "\"" + "}");
    MemberOnOneLine(RESULT, Escaped(r.result), last);
    var result := RESULT + (Escaped(r.result) + "\"" + last);
    MemberOnOneLine(ACTION, Escaped(r.action), result);
    MemberOnOneLine(OPEN, r.timestamp, ACTION + (Escaped(r.action) + "\"" + result));
  }

  function ParseLines(lines: seq<string>): Option<seq<Record>> {
    if lines == [] then Some([])
    else
      var first, rest := ParseRecord(lines[0]), ParseLines(lines[1..]);
      if first.Some? && rest.Some? then Some([first.value] + rest.value) else None
  }

  /** All records of a file; None when a line of it is no record. */
  function ReadFile(content: string): Option<seq<Record>> { ParseLines(Lines(content)) }

  /** What a log call writes. */
  function LogText(r: Record): string { Line(r) + "\n" }
}
