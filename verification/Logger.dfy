/** The three logs of the daemon, rotating side by side on one file system. */
module Logger {
  import opened Text
  import opened Rotation
  import opened RotationHistory

  /** An output stream: the file it has open, if any. */
  class Stream {
    var file: Option<int>

    constructor ()
      ensures file == None
    {
      file := None;
    }
  }

  /** A message ends in one newline that it need not bring along. */
  function Terminated(message: string): string {
    if message != "" && message[|message| - 1] != '\n' then message + "\n" else message
  }

  /** A message that is not empty ends in a newline: its own, or exactly one that is added. */
  lemma OneNewline(message: string)
    ensures Terminated("") == ""
    ensures message != "" ==>
              var text := Terminated(message);
              && message <= text && text[|text| - 1] == '\n'
              && (if message[|message| - 1] == '\n' then |text| == |message| else |text| == |message| + 1)
  {
  }

  method WithNewline(message: string) returns (msg: string)
    ensures msg == Terminated(message)
  {
    msg := message;
    if msg != "" && msg[|msg| - 1] != '\n' {
      msg := msg + "\n";
    }
  }

  predicate Rotates(size: nat, kept: nat, maxSize: nat) { kept > 0 && Due(size, maxSize) }

  /** A rotation when one is due. */
  ghost predicate MaybeRotated(before: Disk, file: int, mid: Disk, file': int, path: string, kept: nat, maxSize: nat)
    requires 0 <= file < |before.data|
  {
    if Rotates(|before.data[file]|, kept, maxSize) then IsRotation(before, mid, path, kept, file')
    else file' == file && mid == before
  }

  /** The whole effect of one write through a stream open on `file`, wherever that file
      is named: afterwards the stream is open on `file'`. */
  ghost predicate Logged(before: Disk, file: int, after: Disk, file': int, path: string, kept: nat, maxSize: nat,
                         text: string)
    requires 0 <= file < |before.data|
  {
    if Rotates(|before.data[file]|, kept, maxSize) then
      && file' == |before.data|
      && after.data == before.data + [text]
      && View(after.names, path, kept) == Shifted(View(before.names, path, kept), file')
      && OthersKept(before.names, after.names, path, kept)
    else
      file' == file && after == before.WithText(file, text)
  }

  class Logger {
    const fs: FileSystem
    const accessStream: Stream
    const errorStream: Stream
    const debugStream: Stream
    var accessPath: string
    var errorPath: string
    var debugPath: string
    var enabled: bool
    var debugLevel: int
    var maxSize: SizeT
    var retention: int

    predicate Distinct() {
      accessStream != errorStream && accessStream != debugStream && errorStream != debugStream
    }

    /** A stream is open exactly when logging is enabled. */
    ghost predicate OpenIfEnabled(stream: Stream)
      reads this, fs, stream
    {
      if enabled then stream.file.Some? && 0 <= stream.file.value < |fs.disk.data| else stream.file.None?
    }

    ghost predicate Valid()
      reads this, fs, accessStream, errorStream, debugStream
    {
      && fs.Valid() && Distinct()
      && OpenIfEnabled(accessStream) && OpenIfEnabled(errorStream) && OpenIfEnabled(debugStream)
    }

    /** An open stream writes to the file its path names. */
    ghost predicate BoundTo(stream: Stream, path: string)
      reads this, fs, stream
    {
      enabled ==> stream.file == Lookup(fs.disk.names, path)
    }

    ghost predicate Bound()
      reads this, fs, accessStream, errorStream, debugStream
    {
      BoundTo(accessStream, accessPath) && BoundTo(errorStream, errorPath) && BoundTo(debugStream, debugPath)
    }

    ghost predicate Separate()
      reads this
    {
      Apart(accessPath, errorPath) && Apart(accessPath, debugPath) && Apart(errorPath, debugPath)
    }

    /** How many rotated files are kept. */
    function Slots(): nat
      reads this
    {
      if retention > 0 then retention else 0
    }

    /** The disk once all three logs are there. */
    function HavingLogs(disk: Disk): Disk
      reads this
    {
      disk.Having(accessPath).Having(errorPath).Having(debugPath)
    }

    constructor (fs: FileSystem, enabledInit: bool, accessFile: string, errorFile: string, debugFile: string)
      requires fs.Valid()
      modifies fs`disk
      ensures Valid() && Bound() && this.fs == fs && enabled == enabledInit
      ensures fresh(accessStream) && fresh(errorStream) && fresh(debugStream)
      ensures accessPath == accessFile && errorPath == errorFile && debugPath == debugFile
      ensures debugLevel == 1 && maxSize == 0 && retention == 0
      ensures fs.disk == if enabled then HavingLogs(old(fs.disk)) else old(fs.disk)
    {
      this.fs, enabled := fs, enabledInit;
      accessPath, errorPath, debugPath := accessFile, errorFile, debugFile;
      debugLevel, maxSize, retention := 1, 0, 0;
      accessStream := new Stream();
      errorStream := new Stream();
      debugStream := new Stream();
      new;
      if enabled {
        OpenStreams();
      }
    }

    method SetLogFiles(accessFile: string, errorFile: string, debugFile: string)
      requires Valid()
      modifies this`accessPath, this`errorPath, this`debugPath, accessStream, errorStream, debugStream, fs`disk
      ensures Valid() && Bound()
      ensures accessPath == accessFile && errorPath == errorFile && debugPath == debugFile
      ensures fs.disk == if enabled then HavingLogs(old(fs.disk)) else old(fs.disk)
    {
      accessPath, errorPath, debugPath := accessFile, errorFile, debugFile;
      if enabled {
        OpenStreams();
      }
    }

    /** The three standard names in one directory are separate. */
    method SetLogDir(directory: string)
      requires Valid()
      modifies this`accessPath, this`errorPath, this`debugPath, accessStream, errorStream, debugStream, fs`disk
      ensures Valid() && Bound() && Separate()
      ensures accessPath == directory + "/access.log" && errorPath == directory + "/error.log"
      ensures debugPath == directory + "/debug.log"
      ensures fs.disk == if enabled then HavingLogs(old(fs.disk)) else old(fs.disk)
    {
      SetLogFiles(directory + "/access.log", directory + "/error.log", directory + "/debug.log");
      ApartInDirectory(directory, "/access.log", "/error.log");
      ApartInDirectory(directory, "/access.log", "/debug.log");
      ApartInDirectory(directory, "/error.log", "/debug.log");
    }

    method SetDebugLevel(level: int)
      modifies this`debugLevel
      ensures 1 <= debugLevel <= 4
      ensures debugLevel == level || (level < 1 && debugLevel == 1) || (level > 4 && debugLevel == 4)
    {
      debugLevel := level;
      if level < 1 {
        debugLevel := 1;
      }
      if debugLevel > 4 {
        debugLevel := 4;
      }
    }

    method SetRotation(maxBytes: SizeT, retentionCount: int)
      requires Valid()
      modifies this`maxSize, this`retention
      ensures Valid() && maxSize == maxBytes && retention == retentionCount
    {
      maxSize, retention := maxBytes, retentionCount;
    }

    method SetEnabled(enable: bool)
      requires Valid()
      modifies this`enabled, accessStream, errorStream, debugStream, fs`disk
      ensures Valid() && enabled == enable
      ensures enable != old(enabled) || old(Bound()) ==> Bound()
      ensures fs.disk == if enable && !old(enabled) then HavingLogs(old(fs.disk)) else old(fs.disk)
    {
      if enabled == enable {
        return;
      }
      enabled := enable;
      if enabled {
        OpenStreams();
      } else {
        accessStream.file := None;
        errorStream.file := None;
        debugStream.file := None;
      }
    }

    /** (Re)opens the three logs, each on the file its path names now. */
    method OpenStreams()
      requires fs.Valid() && Distinct()
      modifies accessStream, errorStream, debugStream, fs`disk
      ensures fs.Valid() && fs.disk == HavingLogs(old(fs.disk))
      ensures enabled ==> Valid() && Bound()
    {
      Open(accessStream, accessPath);
      Open(errorStream, errorPath);
      Open(debugStream, debugPath);
    }

    method Open(stream: Stream, path: string)
      requires fs.Valid()
      modifies stream, fs`disk
      ensures fs.Valid() && fs.disk == old(fs.disk).Having(path)
      ensures path in fs.disk.names && stream.file == Some(fs.disk.names[path])
    {
      stream.file := None;
      var file := fs.OpenAppend(path);
      stream.file := Some(file);
    }

    method RotateIfNeeded(stream: Stream, path: string)
      requires fs.Valid() && stream.file.Some? && 0 <= stream.file.value < |fs.disk.data|
      modifies stream, fs
      ensures fs.Valid() && stream.file.Some? && 0 <= stream.file.value < |fs.disk.data|
      ensures MaybeRotated(old(fs.disk), old(stream.file).value, fs.disk, stream.file.value, path, Slots(), maxSize)
      ensures fs.overwritten == old(fs.overwritten)
    {
      if maxSize == 0 || retention <= 0 {
        return;
      }
      var pos := fs.Size(stream.file.value);
      if pos < AsStreamPos(maxSize) {
        return;
      }
      stream.file := None;
      var live := RotateFiles(fs, path, retention);
      stream.file := Some(live);
    }

    /** One write. For every state of the three streams it says exactly what happens to the
        disk; when the stream is bound to its path, the log's own family has one more
        message and every other file is as it was. */
    method Write(stream: Stream, path: string, message: string)
      requires Valid() && (stream == accessStream || stream == errorStream || stream == debugStream)
      modifies stream, fs
      ensures Valid()
      ensures !enabled ==> fs.disk == old(fs.disk)
      ensures enabled ==> Logged(old(fs.disk), old(stream.file).value, fs.disk, stream.file.value, path, Slots(),
                                 maxSize, Terminated(message))
      ensures enabled && old(BoundTo(stream, path)) ==>
                && BoundTo(stream, path)
                && Wrote(old(fs.disk), fs.disk, Entry(path, Terminated(message)), Slots(), maxSize)
      ensures fs.overwritten == old(fs.overwritten)
    {
      if !enabled {
        return;
      }
      hide Logged, Wrote, Disk.Valid, Disk.Files, Slots, Terminated, Lookup;
      Emit(stream, path, message);
    }

    /** The part of a write that is done when logging is enabled. */
    method Emit(stream: Stream, path: string, message: string)
      requires fs.Valid() && stream.file.Some? && 0 <= stream.file.value < |fs.disk.data|
      modifies stream, fs
      ensures fs.Valid() && stream.file.Some? && 0 <= stream.file.value < |fs.disk.data|
      ensures |fs.disk.data| >= |old(fs.disk.data)|
      ensures Logged(old(fs.disk), old(stream.file).value, fs.disk, stream.file.value, path, Slots(), maxSize,
                     Terminated(message))
      ensures old(stream.file == Lookup(fs.disk.names, path)) ==>
                && stream.file == Lookup(fs.disk.names, path)
                && Wrote(old(fs.disk), fs.disk, Entry(path, Terminated(message)), Slots(), maxSize)
      ensures fs.overwritten == old(fs.overwritten)
    {
      hide Logged, MaybeRotated, Wrote, Disk.Valid, Disk.Files, Disk.WithText, Terminated, Lookup, Slots;
      ghost var before, file := fs.disk, stream.file.value;
      ghost var bound := stream.file == Lookup(fs.disk.names, path);
      RotateIfNeeded(stream, path);
      ghost var rotated, open := fs.disk, stream.file.value;
      var msg := WithNewline(message);
      LoggedInTwo(before, file, rotated, open, path, Slots(), maxSize, msg);
      if bound {
        BoundWrite(before, file, rotated, open, path, Slots(), maxSize, msg);
      }
      fs.Append(stream.file.value, msg);
    }

    method LogAccess(message: string)
      requires Valid()
      modifies accessStream, fs
      ensures Valid()
      ensures !enabled ==> fs.disk == old(fs.disk)
      ensures enabled ==>
                Logged(old(fs.disk), old(accessStream.file).value, fs.disk, accessStream.file.value, accessPath,
                       Slots(), maxSize, Terminated(message))
      ensures enabled && old(Bound()) && Separate() ==>
                Bound() && Wrote(old(fs.disk), fs.disk, Entry(accessPath, Terminated(message)), Slots(), maxSize)
    {
      Write(accessStream, accessPath, message);
      if enabled && old(Bound()) && Separate() {
        StaysBound(old(fs.disk), old(accessStream.file).value, fs.disk, accessStream.file.value, accessPath, Slots(),
                   maxSize, Terminated(message), errorPath);
        StaysBound(old(fs.disk), old(accessStream.file).value, fs.disk, accessStream.file.value, accessPath, Slots(),
                   maxSize, Terminated(message), debugPath);
      }
    }

    method LogError(message: string)
      requires Valid()
      modifies errorStream, fs
      ensures Valid()
      ensures !enabled ==> fs.disk == old(fs.disk)
      ensures enabled ==>
                Logged(old(fs.disk), old(errorStream.file).value, fs.disk, errorStream.file.value, errorPath, Slots(),
                       maxSize, Terminated(message))
      ensures enabled && old(Bound()) && Separate() ==>
                Bound() && Wrote(old(fs.disk), fs.disk, Entry(errorPath, Terminated(message)), Slots(), maxSize)
    {
      Write(errorStream, errorPath, message);
      if enabled && old(Bound()) && Separate() {
        StaysBound(old(fs.disk), old(errorStream.file).value, fs.disk, errorStream.file.value, errorPath, Slots(),
                   maxSize, Terminated(message), accessPath);
        StaysBound(old(fs.disk), old(errorStream.file).value, fs.disk, errorStream.file.value, errorPath, Slots(),
                   maxSize, Terminated(message), debugPath);
      }
    }

    method LogDebug(message: string, level: int)
      requires Valid()
      modifies debugStream, fs
      ensures Valid()
      ensures !enabled || level > debugLevel ==> fs.disk == old(fs.disk) && debugStream.file == old(debugStream.file)
      ensures enabled && level <= debugLevel ==>
                Logged(old(fs.disk), old(debugStream.file).value, fs.disk, debugStream.file.value, debugPath, Slots(),
                       maxSize, Terminated(message))
      ensures enabled && level <= debugLevel && old(Bound()) && Separate() ==>
                Bound() && Wrote(old(fs.disk), fs.disk, Entry(debugPath, Terminated(message)), Slots(), maxSize)
    {
      if level <= debugLevel {
        Write(debugStream, debugPath, message);
        if enabled && old(Bound()) && Separate() {
          StaysBound(old(fs.disk), old(debugStream.file).value, fs.disk, debugStream.file.value, debugPath, Slots(),
                     maxSize, Terminated(message), accessPath);
          StaysBound(old(fs.disk), old(debugStream.file).value, fs.disk, debugStream.file.value, debugPath, Slots(),
                     maxSize, Terminated(message), errorPath);
        }
      }
    }
  }

  // ----- When the logs do not disturb each other -----

  /** One of the rotated names of `path`. */
  ghost predicate IsRotatedName(name: string, path: string) { exists i: nat :: i > 0 && name == Slot(path, i) }

  /** The paths differ, and neither is a rotated name of the other. */
  ghost predicate Apart(p: string, q: string) { p != q && !IsRotatedName(p, q) && !IsRotatedName(q, p) }

  /** Where the digits at the end of a rotated name start is determined by the name. */
  lemma RotatedNamesDiffer(p: string, q: string, i: nat, j: nat)
    requires i > 0 && j > 0 && Slot(p, i) == Slot(q, j)
    ensures p == q && i == j
  {
    var name, m, n := Slot(p, i), |p|, |q|;
    assert name[m] == '.' && name[n] == '.';
    assert forall k :: m < k < |name| ==> IsDigit(name[k]) by {
      assert name[m + 1..] == Decimal(i);
      assert forall k :: m < k < |name| ==> name[k] == Decimal(i)[k - m - 1];
    }
    assert forall k :: n < k < |name| ==> IsDigit(name[k]) by {
      assert name[n + 1..] == Decimal(j);
      assert forall k :: n < k < |name| ==> name[k] == Decimal(j)[k - n - 1];
    }
    assert m == n;
    assert p == name[..m] == q;
    SlotInjective(p, i, j);
  }

  /** All rotation names of two logs are distinct exactly when the paths are apart. */
  lemma FamiliesAreDisjoint(p: string, q: string)
    ensures Apart(p, q) <==> forall i: nat, j: nat :: Slot(p, i) != Slot(q, j)
  {
    if Apart(p, q) {
      forall i: nat, j: nat ensures Slot(p, i) != Slot(q, j) {
        if Slot(p, i) == Slot(q, j) && i > 0 && j > 0 {
          RotatedNamesDiffer(p, q, i, j);
        }
      }
    } else {
      assert p == Slot(p, 0) && q == Slot(q, 0);
    }
  }

  lemma ApartInDirectory(dir: string, x: string, y: string)
    requires |x| >= 2 && |y| >= 2 && x[1] != y[1]
    ensures Apart(dir + x, dir + y)
  {
    var k := |dir| + 1;
    assert (dir + x)[k] == x[1] && (dir + y)[k] == y[1];
    assert forall i: nat :: Slot(dir + x, i)[k] == x[1] && Slot(dir + y, i)[k] == y[1];
  }

  lemma NotInFamily(p: string, q: string, kept: nat)
    requires Apart(p, q)
    ensures !InFamily(q, p, kept)
  {
    assert Slot(p, 0) == p;
    forall i | 0 <= i <= kept ensures q != Slot(p, i) {
      assert i > 0 && q == Slot(p, i) ==> IsRotatedName(q, p);
    }
  }

  lemma LoggedInTwo(before: Disk, file: int, mid: Disk, file': int, path: string, kept: nat, maxSize: nat, text: string)
    requires 0 <= file < |before.data| && MaybeRotated(before, file, mid, file', path, kept, maxSize)
    ensures 0 <= file' < |mid.data| == |mid.WithText(file', text).data| && |mid.data| >= |before.data|
    ensures Logged(before, file, mid.WithText(file', text), file', path, kept, maxSize, text)
  {
    if Rotates(|before.data[file]|, kept, maxSize) {
      var n := |before.data|;
      assert (before.data + [""])[n := "" + text] == before.data + ["" + text];
      assert "" + text == text;
    }
  }

  lemma MaybeRotatedFiles(before: Disk, file: int, mid: Disk, file': int, path: string, kept: nat, maxSize: nat)
    requires before.Valid() && mid.Valid() && Lookup(before.names, path) == Some(file)
    requires MaybeRotated(before, file, mid, file', path, kept, maxSize)
    ensures Lookup(mid.names, path) == Some(file')
    ensures var v := View(before.Files(), path, kept);
            && v[0] == Some(before.data[file])
            && View(mid.Files(), path, kept) == (if Rotates(|before.data[file]|, kept, maxSize) then Rotated(v) else v)
    ensures OthersKept(before.Files(), mid.Files(), path, kept)
  {
    var rotates := Rotates(|before.data[file]|, kept, maxSize);
    assert Slot(path, 0) == path;
    FilesAt(before, path);
    hide Disk.Valid, Slot;
    if rotates {
      LiveIs(before, mid, path, kept, file');
      RotationOfFiles(before, mid, path, kept, file');
    }
  }

  /** A write through a bound stream: the stream stays bound, and the family has one more
      message. */
  lemma BoundWrite(before: Disk, file: int, mid: Disk, file': int, path: string, kept: nat, maxSize: nat, text: string)
    requires before.Valid() && mid.Valid() && Lookup(before.names, path) == Some(file)
    requires MaybeRotated(before, file, mid, file', path, kept, maxSize)
    ensures 0 <= file' < |mid.data| && mid.WithText(file', text).Valid()
    ensures Lookup(mid.WithText(file', text).names, path) == Some(file')
    ensures Wrote(before, mid.WithText(file', text), Entry(path, text), kept, maxSize)
  {
    MaybeRotatedFiles(before, file, mid, file', path, kept, maxSize);
    assert path in mid.names && mid.names[path] == file';
    assert mid.Files()[path] == View(mid.Files(), path, kept)[0].value by {
      assert Slot(path, 0) == path;
    }
    AppendToLive(mid, path, kept, text);
    hide Disk.Files, Slot, View, IsRotation, Rotated, OthersKept;
    KeptTwice(before.Files(), mid.Files(), mid.WithText(file', text).Files(), path, kept);
  }

  /** When another log stays bound to its path during a write to this one: always, unless
      this log rotates and the other's path is one of the names that the rotation moves. */
  lemma StaysBound(before: Disk, file: int, after: Disk, file': int, path: string, kept: nat, maxSize: nat,
                   text: string, other: string)
    requires before.Valid() && 0 <= file < |before.data| && other in before.names
    requires Logged(before, file, after, file', path, kept, maxSize, text)
    ensures Lookup(after.names, other) == Lookup(before.names, other) <==>
            || !Rotates(|before.data[file]|, kept, maxSize)
            || !InFamily(other, path, kept)
            || (other == Slot(path, kept) && Slot(path, kept - 1) !in before.names)
    ensures Apart(path, other) ==> Lookup(after.names, other) == Lookup(before.names, other)
  {
    if Apart(path, other) {
      NotInFamily(path, other, kept);
    }
    if Rotates(|before.data[file]|, kept, maxSize) && InFamily(other, path, kept) {
      var j :| 0 <= j <= kept && other == Slot(path, j);
      assert Lookup(after.names, other) == View(after.names, path, kept)[j];
      MovedOrLast(before, path, kept, file', j);
      if other == Slot(path, kept) {
        SlotInjective(path, j, kept);
      }
    }
  }

  /** The file of a slot stays there only in the last slot, when nothing moves up. */
  lemma MovedOrLast(before: Disk, path: string, kept: nat, live: int, j: nat)
    requires before.Valid() && live == |before.data| && kept > 0 && j <= kept && Slot(path, j) in before.names
    ensures Shifted(View(before.names, path, kept), live)[j] == Lookup(before.names, Slot(path, j))
            <==> j == kept && Slot(path, kept - 1) !in before.names
  {
    if j > 0 && Slot(path, j - 1) == Slot(path, j) {
      SlotInjective(path, j - 1, j);
    }
  }

  /** Two logs at one path: after the first rotation the other stream goes on writing to
      the file that is now the newest rotated one. */
  lemma SharedPathComesApart(before: Disk, file: int, after: Disk, file': int, path: string, kept: nat, maxSize: nat,
                             text: string)
    requires before.Valid() && Lookup(before.names, path) == Some(file)
    requires Logged(before, file, after, file', path, kept, maxSize, text)
    requires Rotates(|before.data[file]|, kept, maxSize)
    ensures Lookup(after.names, path) == Some(file') && file' != file
    ensures Lookup(after.names, Slot(path, 1)) == Some(file)
  {
    var v := View(before.names, path, kept);
    assert Slot(path, 0) == path;
    assert View(after.names, path, kept)[0] == Some(file');
    assert View(after.names, path, kept)[1] == Shifted(v, file')[1] == v[0];
  }

  // ----- Any interleaving of writes to several logs -----

  /** The disks that a run of writes goes through. */
  ghost predicate IsRun(disks: seq<Disk>, entries: seq<Entry>, kept: nat, maxSize: nat) {
    && |disks| == |entries| + 1
    && disks[0].Valid()
    && forall k :: 0 <= k < |entries| ==> Wrote(disks[k], disks[k + 1], entries[k], kept, maxSize)
  }

  /** The texts that go to one of the logs. */
  function TextsFor(path: string, entries: seq<Entry>): seq<string>
    decreases entries
  {
    if entries == [] then []
    else
      var last := entries[|entries| - 1];
      TextsFor(path, entries[..|entries| - 1]) + if last.path == path then [last.text] else []
  }

  lemma OtherFamilyKept(before: Disk, after: Disk, e: Entry, path: string, kept: nat, maxSize: nat)
    requires Wrote(before, after, e, kept, maxSize) && Apart(path, e.path)
    ensures View(after.Files(), path, kept) == View(before.Files(), path, kept)
  {
    forall j | 0 <= j <= kept ensures Lookup(after.Files(), Slot(path, j)) == Lookup(before.Files(), Slot(path, j)) {
      FamiliesAreDisjoint(path, e.path);
      assert !InFamily(Slot(path, j), e.path, kept);
    }
  }

  /** However the writes of the logs are interleaved, each log's files end as if its own
      messages had been written alone. */
  lemma {:induction false} EachLogOnItsOwn(disks: seq<Disk>, entries: seq<Entry>, path: string, kept: nat, maxSize: nat)
    requires IsRun(disks, entries, kept, maxSize)
    requires path in disks[0].names
    requires forall e <- entries :: e.path == path || Apart(path, e.path)
    ensures disks[|entries|].Valid()
    ensures View(disks[0].Files(), path, kept)[0].Some?
    ensures View(disks[|entries|].Files(), path, kept)
            == AllWritten(View(disks[0].Files(), path, kept), maxSize, TextsFor(path, entries))
    decreases entries
  {
    hide *;
    RunStarts(disks, entries, path, kept, maxSize);
    if entries != [] {
      var n := |entries| - 1;
      RunEnds(disks, entries, kept, maxSize);
      assert forall f <- entries[..n] :: f in entries;
      EachLogOnItsOwn(disks[..n + 1], entries[..n], path, kept, maxSize);
      assert entries[n] in entries && entries == entries[..n] + [entries[n]];
      LastWrite(disks[0], disks[n], disks[n + 1], entries[..n], entries[n], path, kept, maxSize);
    } else {
      NothingWritten(View(disks[0].Files(), path, kept), path, maxSize);
    }
  }

  lemma RunStarts(disks: seq<Disk>, entries: seq<Entry>, path: string, kept: nat, maxSize: nat)
    requires IsRun(disks, entries, kept, maxSize) && path in disks[0].names
    ensures |disks| == |entries| + 1 && disks[0].Valid() && View(disks[0].Files(), path, kept)[0].Some?
  {
    assert Slot(path, 0) == path;
  }

  lemma RunEnds(disks: seq<Disk>, entries: seq<Entry>, kept: nat, maxSize: nat)
    requires IsRun(disks, entries, kept, maxSize) && entries != []
    ensures var n := |entries| - 1;
            && IsRun(disks[..n + 1], entries[..n], kept, maxSize)
            && Wrote(disks[n], disks[n + 1], entries[n], kept, maxSize)
  {
    hide Wrote;
  }

  lemma NothingWritten(v: seq<Option<string>>, path: string, maxSize: nat)
    requires v != [] && v[0].Some?
    ensures AllWritten(v, maxSize, TextsFor(path, [])) == v
  {
  }

  lemma LastWrite(first: Disk, before: Disk, after: Disk, entries: seq<Entry>, e: Entry, path: string, kept: nat,
                  maxSize: nat)
    requires first.Valid() && View(first.Files(), path, kept)[0].Some?
    requires Wrote(before, after, e, kept, maxSize) && before.Valid() && (e.path == path || Apart(path, e.path))
    requires View(before.Files(), path, kept)
             == AllWritten(View(first.Files(), path, kept), maxSize, TextsFor(path, entries))
    ensures after.Valid()
    ensures View(after.Files(), path, kept)
            == AllWritten(View(first.Files(), path, kept), maxSize, TextsFor(path, entries + [e]))
  {
    assert (entries + [e])[..|entries|] == entries;
    if e.path == path {
      AllWrittenLast(View(first.Files(), path, kept), maxSize, TextsFor(path, entries), e.text);
    } else {
      OtherFamilyKept(before, after, e, path, kept, maxSize);
      assert TextsFor(path, entries + [e]) == TextsFor(path, entries);
    }
  }

  /** In any such run each log ends with a suffix of what it held and what was written to
      it, from every start. From a start without gaps whose rotated files are full it keeps
      everything or at least kept * maxSize bytes, and from a start within the bound it
      never holds more than (kept + 1) * (maxSize - 1 + longest) bytes. */
  lemma EachLogKeepsItsNewest(disks: seq<Disk>, entries: seq<Entry>, path: string, kept: nat, maxSize: nat,
                              longest: nat, l: Layout) returns (end: Layout)
    requires IsRun(disks, entries, kept, maxSize) && kept > 0 && 0 < maxSize < TWO_63
    requires path in disks[0].names && IsLayout(l) && View(disks[0].Files(), path, kept) == Files(l)
    requires forall e <- entries :: e.path == path || Apart(path, e.path)
    requires NothingAdded(l) && forall t <- TextsFor(path, entries) :: |t| <= longest
    ensures disks[|entries|].Valid() && View(disks[|entries|].Files(), path, kept) == Files(end)
    ensures IsLayout(end) && FilledWithin(end, maxSize - 1 + longest)
    ensures var all := Held(l) + TextsFor(path, entries);
            && IsSuffix(Held(end), all)
            && (GapFree(l) && Full(l, maxSize) ==> Held(end) == all || |Concat(Held(end))| >= kept * maxSize)
    ensures AllWithin(l, maxSize - 1 + longest) ==> |Concat(Held(end))| <= (kept + 1) * (maxSize - 1 + longest)
  {
    var texts := TextsFor(path, entries);
    assert |l| == kept + 1;
    hide *;
    EachLogOnItsOwn(disks, entries, path, kept, maxSize);
    AfterAllIsWritten(l, maxSize, texts);
    end := AfterAll(l, maxSize, texts);
    HeldIsSuffix(l, maxSize, texts);
    EveryFileBounded(l, maxSize, texts, longest);
    if GapFree(l) && Full(l, maxSize) {
      RetainedFromBelow(l, maxSize, texts);
    }
    if AllWithin(l, maxSize - 1 + longest) {
      RetainedFromAbove(l, maxSize, texts, longest);
    }
  }

  // ----- A run of calls on one logger -----

  datatype Message = ToAccess(text: string) | ToError(text: string) | ToDebug(text: string, level: int)

  /** Where a message goes; nowhere when it is above the debug level. */
  function EntryOf(log: Logger, m: Message): seq<Entry>
    reads log
  {
    match m
    case ToAccess(text) => [Entry(log.accessPath, Terminated(text))]
    case ToError(text) => [Entry(log.errorPath, Terminated(text))]
    case ToDebug(text, level) => if level <= log.debugLevel then [Entry(log.debugPath, Terminated(text))] else []
  }

  function EntriesOf(log: Logger, messages: seq<Message>): seq<Entry>
    reads log
  {
    if messages == [] then []
    else EntriesOf(log, messages[..|messages| - 1]) + EntryOf(log, messages[|messages| - 1])
  }

  method LogOne(log: Logger, m: Message)
    requires log.Valid() && log.enabled && log.Bound() && log.Separate()
    modifies log.accessStream, log.errorStream, log.debugStream, log.fs
    ensures log.Valid() && log.Bound()
    ensures var entry := EntryOf(log, m);
            if entry == [] then log.fs.disk == old(log.fs.disk)
            else Wrote(old(log.fs.disk), log.fs.disk, entry[0], log.Slots(), log.maxSize)
  {
    hide Wrote, Logged, Apart, Terminated;
    match m
    case ToAccess(text) => log.LogAccess(text);
    case ToError(text) => log.LogError(text);
    case ToDebug(text, level) => log.LogDebug(text, level);
  }

  lemma RunGrows(disks: seq<Disk>, entries: seq<Entry>, disk: Disk, e: Entry, kept: nat, maxSize: nat)
    requires IsRun(disks, entries, kept, maxSize) && Wrote(disks[|entries|], disk, e, kept, maxSize)
    ensures IsRun(disks + [disk], entries + [e], kept, maxSize)
  {
    hide Wrote, Disk.Valid;
  }

  lemma RunBegins(disk: Disk, kept: nat, maxSize: nat)
    requires disk.Valid()
    ensures IsRun([disk], [], kept, maxSize)
  {
  }

  /** Any sequence of calls on a logger with separate paths is such a run, and leaves all
      three streams bound. */
  method LogMessages(log: Logger, messages: seq<Message>) returns (ghost disks: seq<Disk>)
    requires log.Valid() && log.enabled && log.Bound() && log.Separate()
    modifies log.accessStream, log.errorStream, log.debugStream, log.fs
    ensures log.Valid() && log.Bound()
    ensures IsRun(disks, EntriesOf(log, messages), log.Slots(), log.maxSize)
    ensures disks[0] == old(log.fs.disk) && disks[|EntriesOf(log, messages)|] == log.fs.disk
  {
    disks := [log.fs.disk];
    RunBegins(log.fs.disk, log.Slots(), log.maxSize);
    ghost var entries: seq<Entry> := [];
    hide IsRun, Wrote, Apart, EntryOf, Logger.Slots;
    var i := 0;
    while i < |messages|
      invariant 0 <= i <= |messages|
      invariant log.Valid() && log.Bound()
      invariant entries == EntriesOf(log, messages[..i]) && |disks| == |entries| + 1
      invariant IsRun(disks, entries, log.Slots(), log.maxSize)
      invariant disks[0] == old(log.fs.disk) && disks[|entries|] == log.fs.disk
    {
      LogOne(log, messages[i]);
      assert messages[..i + 1][..i] == messages[..i];
      ghost var entry := EntryOf(log, messages[i]);
      OneEntry(log, messages[i]);
      if entry != [] {
        RunGrows(disks, entries, log.fs.disk, entry[0], log.Slots(), log.maxSize);
        disks := disks + [log.fs.disk];
      }
      entries := entries + entry;
      i := i + 1;
    }
    assert messages[..i] == messages;
  }

  lemma OneEntry(log: Logger, m: Message)
    ensures EntryOf(log, m) == [] || EntryOf(log, m) == [EntryOf(log, m)[0]]
  {
  }
}
