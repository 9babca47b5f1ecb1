/** The status log: a rotating file of records, and what can be read back from it. */
module StatusLog {
  import opened Text
  import opened Rotation
  import opened RotationHistory
  import opened StatusFormat

  class StatusLogger {
    const fs: FileSystem
    var path: string
    var maxSize: SizeT
    var retention: int
    var stream: Option<int>     // the file the open stream writes to

    /** The stream is open on the file the current path names. */
    ghost predicate Valid()
      reads this, fs
    {
      fs.Valid() && path in fs.disk.names && stream == Some(fs.disk.names[path])
    }

    /** How many rotated files are kept. */
    function Slots(): nat
      reads this
    {
      if retention > 0 then retention else 0
    }

    ghost function Family(): (v: seq<Option<string>>)
      requires Valid()
      reads this, fs
      ensures v != [] && v[0].Some?
    {
      assert Slot(path, 0) == path;
      View(fs.disk.Files(), path, Slots())
    }

    constructor (fs: FileSystem, path: string)
      requires fs.Valid()
      modifies fs`disk
      ensures Valid() && this.fs == fs && this.path == path && maxSize == 0 && retention == 0
      ensures fs.disk == old(fs.disk).Having(path)
    {
      this.fs, this.path, maxSize, retention := fs, path, 0, 0;
      stream := None;
      new;
      var handle := fs.OpenAppend(path);
      stream := Some(handle);
    }

    method SetPath(newPath: string)
      requires fs.Valid()
      modifies this`path, this`stream, fs`disk
      ensures Valid() && path == newPath
      ensures fs.disk == old(fs.disk).Having(newPath)
    {
      path := newPath;
      stream := None;
      var handle := fs.OpenAppend(path);
      stream := Some(handle);
    }

    method SetRotation(maxBytes: SizeT, retentionCount: int)
      requires Valid()
      modifies this`maxSize, this`retention
      ensures Valid() && maxSize == maxBytes && retention == retentionCount
    {
      maxSize, retention := maxBytes, retentionCount;
    }

    method RotateIfNeeded()
      requires Valid()
      modifies this`stream, fs
      ensures Valid()
      ensures Family() == var v := old(Family());
                          if |v| > 1 && Due(|v[0].value|, maxSize) then Rotated(v) else v
      ensures OthersKept(old(fs.disk.Files()), fs.disk.Files(), path, Slots())
      ensures fs.overwritten == old(fs.overwritten)
    {
      if maxSize == 0 || retention <= 0 {
        return;
      }
      var pos := fs.Size(stream.value);
      if pos < AsStreamPos(maxSize) {
        return;
      }
      ghost var before := fs.disk;
      stream := None;
      var live := RotateFiles(fs, path, retention);
      LiveIs(before, fs.disk, path, retention, live);
      RotationOfFiles(before, fs.disk, path, retention, live);
      stream := Some(live);
    }

    /** A call rotates the family when its live file has reached the limit and appends one
        record. Files outside the family are left alone, and no rename replaces a file. */
    method Log(timestamp: string, action: string, result: string, metadata: string)
      requires Valid()
      modifies this`stream, fs
      ensures Valid()
      ensures Wrote(old(fs.disk), fs.disk, Entry(path, LogText(Record(timestamp, action, result, metadata))), Slots(),
                    maxSize)
      ensures fs.overwritten == old(fs.overwritten)
    {
      ghost var before := fs.disk;
      RotateIfNeeded();
      ghost var rotated := fs.disk;
      var text := Render(Record(timestamp, action, result, metadata));
      AppendToLive(rotated, path, Slots(), text);
      hide LogText, Rotated, OthersKept, Due, InFamily, Disk.Files, Disk.Valid;
      fs.Append(stream.value, text);
      KeptTwice(before.Files(), rotated.Files(), fs.disk.Files(), path, Slots());
      LiveHolds(rotated, path, Slots());
    }
  }

  lemma LiveHolds(d: Disk, path: string, kept: nat)
    requires d.Valid() && path in d.names
    ensures View(d.Files(), path, kept)[0] == Some(d.Files()[path])
  {
    assert Slot(path, 0) == path;
  }

  /** The line a call writes, put together member by member. */
  method Render(r: Record) returns (text: string)
    ensures text == LogText(r)
  {
    var action := Escape(r.action);
    var result := Escape(r.result);
    var metadata := Escape(r.metadata);
    text := OPEN + (r.timestamp + "\"");
    text := text + (ACTION + (action + "\""));
    text := text + (RESULT + (result + "\""));
    text := text + (METADATA + (metadata + "\"" + "}"));
    LineIs(r, action, result, metadata);
    hide Line, OPEN, ACTION, RESULT, METADATA;
    text := text + "\n";
  }

  /** A run of log calls on one logger: the family ends as the texts of the calls, written
      one after another, make it. */
  method LogAll(log: StatusLogger, calls: seq<Record>)
    requires log.Valid()
    modifies log`stream, log.fs
    ensures log.Valid()
    ensures log.Family() == AllWritten(old(log.Family()), log.maxSize, Texts(calls))
    ensures OthersKept(old(log.fs.disk.Files()), log.fs.disk.Files(), log.path, log.Slots())
  {
    ghost var before, v := log.fs.disk.Files(), log.Family();
    NoCalls(v, log.maxSize, calls);
    hide Slot, View, OthersKept, InFamily, AllWritten, Texts, LogText, Written, Disk.Files;
    var i := 0;
    while i < |calls|
      invariant 0 <= i <= |calls|
      invariant log.Valid()
      invariant log.Family() == AllWritten(v, log.maxSize, Texts(calls[..i]))
      invariant OthersKept(before, log.fs.disk.Files(), log.path, log.Slots())
    {
      ghost var files := log.fs.disk.Files();
      log.Log(calls[i].timestamp, calls[i].action, calls[i].result, calls[i].metadata);
      OneMoreCall(v, log.maxSize, calls, i);
      KeptTwice(before, files, log.fs.disk.Files(), log.path, log.Slots());
      i := i + 1;
    }
    assert calls[..i] == calls;
  }

  lemma NoCalls(v: seq<Option<string>>, maxSize: nat, calls: seq<Record>)
    requires v != [] && v[0].Some?
    ensures AllWritten(v, maxSize, Texts(calls[..0])) == v
  {
    assert Texts(calls[..0]) == [];
  }

  lemma OneMoreCall(v: seq<Option<string>>, maxSize: nat, calls: seq<Record>, i: nat)
    requires v != [] && v[0].Some? && i < |calls|
    ensures AllWritten(v, maxSize, Texts(calls[..i + 1]))
            == Written(AllWritten(v, maxSize, Texts(calls[..i])), maxSize, LogText(calls[i]))
  {
    assert Texts(calls[..i + 1]) == Texts(calls[..i]) + [LogText(calls[i])];
    AllWrittenLast(v, maxSize, Texts(calls[..i]), LogText(calls[i]));
  }

  lemma Assoc(x: string, y: string, z: string)
    ensures x + y + z == x + (y + z)
  {
  }

  /** Writing the members one after another spells the line. */
  lemma LineIs(rec: Record, a: string, r: string, m: string)
    requires a == Escaped(rec.action) && r == Escaped(rec.result) && m == Escaped(rec.metadata)
    ensures OPEN + (rec.timestamp + "\"") + (ACTION + (a + "\"")) + (RESULT + (r + "\""))
            + (METADATA + (m + "\"" + "}")) == Line(rec)
  {
    hide Escaped;
    var m1 := METADATA + (m + "\"" + "}");
    Assoc(RESULT, r + "\"", m1);
    var r1 := RESULT + (r + "\"" + m1);
    Assoc(ACTION, a + "\"", r1);
    var a1 := ACTION + (a + "\"" + r1);
    Assoc(OPEN, rec.timestamp + "\"", a1);
    Assoc(OPEN + (rec.timestamp + "\""), ACTION + (a + "\""), r1);
    Assoc(OPEN + (rec.timestamp + "\"") + (ACTION + (a + "\"")), RESULT + (r + "\""), m1);
  }

  // ----- Reading the family back -----

  /** A complete line that is a record. */
  predicate IsLogText(t: string) {
    t != "" && t[|t| - 1] == '\n' && NoNewline(t[..|t| - 1]) && ParseRecord(t[..|t| - 1]).Some?
  }

  function RecordOf(t: string): Record
    requires IsLogText(t)
  {
    ParseRecord(t[..|t| - 1]).value
  }

  predicate AllLogTexts(texts: seq<string>) { forall k :: 0 <= k < |texts| ==> IsLogText(texts[k]) }

  function RecordsOf(texts: seq<string>): (rs: seq<Record>)
    requires AllLogTexts(texts)
    ensures |rs| == |texts| && forall k :: 0 <= k < |rs| ==> rs[k] == RecordOf(texts[k])
  {
    seq(|texts|, k requires 0 <= k < |texts| => RecordOf(texts[k]))
  }

  lemma ReadFileCons(t: string, content: string)
    requires IsLogText(t)
    ensures ReadFile(t + content)
            == if ReadFile(content).Some? then Some([RecordOf(t)] + ReadFile(content).value) else None
  {
    var line := t[..|t| - 1];
    LinesFromLine("", line, content);
    assert "" + line == line && t == line + "\n" && t + content == line + ("\n" + content);
    hide ParseRecord, LinesFrom;
    assert ([line] + Lines(content))[1..] == Lines(content);
  }

  lemma RecordsCons(t: string, texts: seq<string>)
    requires IsLogText(t) && AllLogTexts(texts)
    ensures AllLogTexts([t] + texts) && RecordsOf([t] + texts) == [RecordOf(t)] + RecordsOf(texts)
  {
    hide IsLogText, RecordOf;
  }

  /** The records of a file that was written record by record. */
  lemma {:induction false} FileReadsBack(texts: seq<string>)
    requires AllLogTexts(texts)
    ensures ReadFile(Concat(texts)) == Some(RecordsOf(texts))
  {
    if texts == [] {
      assert RecordsOf(texts) == [];
    } else {
      var t, rest := texts[0], texts[1..];
      assert IsLogText(texts[0]);
      assert AllLogTexts(rest);
      assert texts == [t] + rest;
      FileReadsBack(rest);
      hide *;
      FirstText(t, rest);
      ReadFileCons(t, Concat(rest));
      RecordsCons(t, rest);
    }
  }

  lemma FirstText(t: string, rest: seq<string>)
    ensures Concat([t] + rest) == t + Concat(rest)
  {
    ConcatConcat([t], rest);
    assert [t][..0] == [] && Concat([t]) == "" + t;
  }

  function Join(a: Option<seq<Record>>, b: Option<seq<Record>>): Option<seq<Record>> {
    if a.Some? && b.Some? then Some(a.value + b.value) else None
  }

  function ReadSlot(s: Option<string>): Option<seq<Record>> {
    match s
    case None => Some([])
    case Some(content) => ReadFile(content)
  }

  /** The records of a whole family, oldest first; None when a file does not read. */
  function ReadFamily(v: seq<Option<string>>): Option<seq<Record>> {
    if v == [] then Some([]) else Join(ReadFamily(v[1..]), ReadSlot(v[0]))
  }

  lemma RecordsConcat(a: seq<string>, b: seq<string>)
    requires AllLogTexts(a + b)
    ensures AllLogTexts(a) && AllLogTexts(b) && RecordsOf(a + b) == RecordsOf(a) + RecordsOf(b)
  {
    assert forall k :: 0 <= k < |a| ==> (a + b)[k] == a[k];
    assert forall k :: 0 <= k < |b| ==> (a + b)[|a| + k] == b[k];
  }

  lemma SlotReadsBack(f: Option<LogFile>)
    requires AllLogTexts(TextsIn(f))
    ensures ReadSlot(BytesIn(f)) == Some(RecordsOf(TextsIn(f)))
  {
    if f.Some? {
      FileReadsBack(f.value.Texts());
    }
  }

  /** Reading the files of a family, gaps or not, gives the records its texts stand for:
      no record is split across files. */
  lemma {:induction false} FamilyReadsBack(l: Layout)
    requires AllLogTexts(Held(l))
    ensures ReadFamily(Files(l)) == Some(RecordsOf(Held(l)))
  {
    if l != [] {
      RecordsConcat(Held(l[1..]), TextsIn(l[0]));
      FamilyReadsBack(l[1..]);
      SlotReadsBack(l[0]);
      assert Files(l)[1..] == Files(l[1..]);
      hide ReadSlot, BytesIn, TextsIn, RecordsOf, IsLogText;
    }
  }

  // ----- Any run of log calls -----

  predicate Loggable(r: Record) { IsStamp(r.timestamp) && ReadableRecord(r) }

  function Texts(calls: seq<Record>): seq<string> { seq(|calls|, k requires 0 <= k < |calls| => LogText(calls[k])) }

  lemma TextsAreRecords(calls: seq<Record>)
    requires forall r <- calls :: Loggable(r)
    ensures AllLogTexts(Texts(calls)) && RecordsOf(Texts(calls)) == calls
  {
    forall k | 0 <= k < |calls| ensures IsLogText(Texts(calls)[k]) && RecordOf(Texts(calls)[k]) == calls[k] {
      var r := calls[k];
      assert r in calls;
      var t := LogText(r);
      assert t[..|t| - 1] == Line(r);
      RecordReadsBack(r);
      LineHasNoNewline(r);
    }
  }

  lemma RecordsFollow(past: seq<string>, calls: seq<Record>)
    requires AllLogTexts(past) && forall r <- calls :: Loggable(r)
    ensures AllLogTexts(past + Texts(calls)) && RecordsOf(past + Texts(calls)) == RecordsOf(past) + calls
  {
    TextsAreRecords(calls);
    hide IsLogText, RecordOf, LogText;
    var all := past + Texts(calls);
    assert forall k :: 0 <= k < |past| ==> all[k] == past[k];
    assert forall k :: 0 <= k < |calls| ==> all[|past| + k] == Texts(calls)[k];
    RecordsConcat(past, Texts(calls));
  }

  lemma RecordsOfSuffix(s: seq<string>, all: seq<string>) returns (k: nat)
    requires IsSuffix(s, all) && AllLogTexts(all)
    ensures AllLogTexts(s) && k <= |all| && RecordsOf(s) == RecordsOf(all)[k..]
    ensures k == 0 <==> s == all
  {
    k := |all| - |s|;
    assert all == all[..k] + s;
    hide IsLogText, RecordOf;
    RecordsConcat(all[..k], s);
  }

  /** Start from any family of whole records, files missing or not. After any run of log
      calls with a fixed limit and retention, the files from the oldest to the live one
      read back as a suffix of the records found followed by the calls. If a record is
      missing although there was no gap and the rotated files were full, the files still
      hold at least (slots - 1) * maxSize bytes. */
  lemma StatusFamilyReadsBack(l: Layout, maxSize: nat, calls: seq<Record>) returns (end: Layout, k: nat)
    requires IsLayout(l) && AllLogTexts(Held(l)) && forall r <- calls :: Loggable(r)
    ensures IsLayout(end) && |end| == |l| && Files(end) == AllWritten(Files(l), maxSize, Texts(calls))
    ensures var all := RecordsOf(Held(l)) + calls;
            k <= |all| && ReadFamily(Files(end)) == Some(all[k..])
    ensures k > 0 && GapFree(l) && Full(l, maxSize) && 0 < maxSize < TWO_63 ==>
              |Concat(Held(end))| >= (|l| - 1) * maxSize
  {
    hide *;
    var texts := Texts(calls);
    end := AfterAll(l, maxSize, texts);
    AfterAllIsWritten(l, maxSize, texts);
    HeldIsSuffix(l, maxSize, texts);
    RecordsFollow(Held(l), calls);
    k := RecordsOfSuffix(Held(end), Held(l) + texts);
    FamilyReadsBack(end);
    if k > 0 && GapFree(l) && Full(l, maxSize) && 0 < maxSize < TWO_63 {
      RetainedFromBelow(l, maxSize, texts);
    }
  }

  /** The family of a log that is just being created. */
  function Fresh(slots: nat): (l: Layout)
    requires slots > 0
    ensures IsLayout(l) && |l| == slots && Held(l) == []
  {
    var l: Layout := seq(slots, i => if i == 0 then Some(EMPTY) else None);
    NothingHeld(l);
    l
  }

  lemma {:induction false} NothingHeld(l: Layout)
    requires forall k :: 0 <= k < |l| ==> l[k] == None || l[k] == Some(EMPTY)
    ensures Held(l) == []
  {
    if l != [] {
      NothingHeld(l[1..]);
    }
  }

  /** In particular a new log reads back as a suffix of the calls. */
  lemma FreshStatusFamilyReadsBack(slots: nat, maxSize: nat, calls: seq<Record>) returns (end: Layout, k: nat)
    requires slots > 0 && forall r <- calls :: Loggable(r)
    ensures IsLayout(end) && Files(end) == AllWritten(Files(Fresh(slots)), maxSize, Texts(calls))
    ensures k <= |calls| && ReadFamily(Files(end)) == Some(calls[k..])
    ensures k > 0 && 0 < maxSize < TWO_63 ==> |Concat(Held(end))| >= (slots - 1) * maxSize
  {
    var l := Fresh(slots);
    assert GapFree(l) && Full(l, maxSize);
    assert RecordsOf(Held(l)) == [] && [] + calls == calls;
    hide *;
    end, k := StatusFamilyReadsBack(l, maxSize, calls);
  }
}
