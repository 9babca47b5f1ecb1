/** A file system in which names denote files, and the rotation of one log's files on it.
    A stream holds on to the file it opened, whatever that file is renamed to. */
module Rotation {
  import opened Text

  /** The directory, and the contents of every file there ever was. */
  datatype Disk = Disk(names: map<string, int>, data: seq<string>) {
    /** Every name denotes a file, and no file has two names. */
    ghost predicate Valid() {
      && (forall n :: n in names ==> 0 <= names[n] < |data|)
      && (forall m, n :: m in names && n in names && names[m] == names[n] ==> m == n)
    }

    ghost function Files(): map<string, string>
      requires Valid()
    {
      map n | n in names :: data[names[n]]
    }

    function WithNew(name: string): Disk { Disk(names[name := |data|], data + [""]) }

    /** The disk once a file of this name is there. */
    function Having(name: string): Disk { if name in names then this else WithNew(name) }

    function WithText(handle: int, text: string): Disk
      requires 0 <= handle < |data|
    {
      Disk(names, data[handle := data[handle] + text])
    }
  }

  class FileSystem {
    var disk: Disk
    ghost var overwritten: set<string>   // names some rename replaced

    ghost predicate Valid()
      reads this
    {
      disk.Valid()
    }

    constructor ()
      ensures Valid() && disk == Disk(map[], []) && overwritten == {}
    {
      disk, overwritten := Disk(map[], []), {};
    }

    method Exists(name: string) returns (found: bool)
      ensures found == (name in disk.names)
    {
      found := name in disk.names;
    }

    method Remove(name: string)
      requires Valid()
      modifies this`disk
      ensures Valid() && disk == old(disk).(names := old(disk).names - {name})
    {
      disk := disk.(names := disk.names - {name});
    }

    method Rename(from: string, to: string)
      requires Valid() && from in disk.names && from != to
      modifies this
      ensures Valid()
      ensures disk == old(disk).(names := (old(disk).names - {from})[to := old(disk).names[from]])
      ensures overwritten == old(overwritten) + if to in old(disk).names then {to} else {}
    {
      if to in disk.names {
        overwritten := overwritten + {to};
      }
      disk := disk.(names := (disk.names - {from})[to := disk.names[from]]);
    }

    /** Opening for appending creates a missing file and keeps what is there. */
    method OpenAppend(name: string) returns (handle: int)
      requires Valid()
      modifies this`disk
      ensures Valid() && name in disk.names && handle == disk.names[name]
      ensures disk == old(disk).Having(name)
    {
      if name !in disk.names {
        disk := disk.WithNew(name);
      }
      handle := disk.names[name];
    }

    method OpenTruncate(name: string) returns (handle: int)
      requires Valid()
      modifies this`disk
      ensures Valid() && name in disk.names && handle == disk.names[name]
      ensures disk == if name in old(disk).names
                      then Disk(old(disk).names, old(disk).data[old(disk).names[name] := ""])
                      else old(disk).WithNew(name)
    {
      if name in disk.names {
        disk := disk.(data := disk.data[disk.names[name] := ""]);
      } else {
        disk := disk.WithNew(name);
      }
      handle := disk.names[name];
    }

    method Size(handle: int) returns (size: nat)
      requires 0 <= handle < |disk.data|
      ensures size == |disk.data[handle]|
    {
      size := |disk.data[handle]|;
    }

    method Append(handle: int, text: string)
      requires Valid() && 0 <= handle < |disk.data|
      modifies this`disk
      ensures Valid() && disk == old(disk).WithText(handle, text)
    {
      disk := disk.WithText(handle, text);
    }
  }

  // ----- The files of one log -----

  /** Slot 0 is the live file, slot i the i-th rotated one. */
  function Slot(path: string, i: nat): string {
    if i == 0 then path else path + "." + Decimal(i)
  }

  lemma SlotInjective(path: string, i: nat, j: nat)
    requires Slot(path, i) == Slot(path, j)
    ensures i == j
  {
    if i > 0 && j > 0 {
      assert Slot(path, i)[|path| + 1..] == Decimal(i);
      assert Slot(path, j)[|path| + 1..] == Decimal(j);
      DecimalInjective(i, j);
    }
  }

  /** The live file has the log's own name, the others that name, a dot and their number. */
  lemma SlotNames(path: string, n: nat, d: nat)
    requires d < 10
    ensures Slot(path, 0) == path
    ensures d > 0 ==> Slot(path, d) == path + "." + ["0123456789"[d]]
    ensures n > 0 ==> Slot(path, 10 * n + d) == Slot(path, n) + ["0123456789"[d]]
  {
    DecimalNotation(0, d);
    DecimalNotation(n, d);
    hide Decimal;
    if n > 0 {
      assert Slot(path, n) == path + "." + Decimal(n);
    }
  }

  /** What the slots 0 to `kept` hold. */
  function View<T>(m: map<string, T>, path: string, kept: nat): (v: seq<Option<T>>)
    ensures |v| == kept + 1
    ensures forall i :: 0 <= i <= kept ==> v[i] == Lookup(m, Slot(path, i))
  {
    seq(kept + 1, i requires 0 <= i <= kept => Lookup(m, Slot(path, i)))
  }

  predicate InFamily(name: string, path: string, kept: nat) { exists i :: 0 <= i <= kept && name == Slot(path, i) }

  /** Names outside the family keep what they denote. */
  ghost predicate OthersKept<T>(before: map<string, T>, after: map<string, T>, path: string, kept: nat) {
    forall name :: !InFamily(name, path, kept) ==> Lookup(after, name) == Lookup(before, name)
  }

  /** One rotation is a shift by one slot behind a new live file. The last slot is lost
      when the one before it is occupied, and only then. */
  function Shifted<T>(v: seq<Option<T>>, live: T): (r: seq<Option<T>>)
    requires |v| > 1
    ensures |r| == |v|
  {
    var kept := |v| - 1;
    [Some(live)] + v[..kept - 1] + [if v[kept - 1].Some? then v[kept - 1] else v[kept]]
  }

  function Rotated(v: seq<Option<string>>): (r: seq<Option<string>>)
    requires |v| > 1
    ensures |r| == |v|
  {
    Shifted(v, "")
  }

  /** The slots above `i` have been shifted, `i` itself is free, those below are as before. */
  ghost predicate ShiftedAbove(v: seq<Option<int>>, names: map<string, int>, path: string, kept: nat, i: nat)
    requires |v| == kept + 1 > 1 && i <= kept
  {
    && (forall j :: i < j <= kept ==> Lookup(names, Slot(path, j)) == Shifted(v, 0)[j])
    && (forall j :: 0 <= j < i ==> Lookup(names, Slot(path, j)) == v[j])
    && Lookup(names, Slot(path, i)) == if i == kept then v[kept] else None
  }

  /** The file named `from`, if there is one, is named `to` now. */
  function Moved(names: map<string, int>, from: string, to: string): map<string, int>
    requires from != to
  {
    if from in names then (names - {from, to})[to := names[from]] else names
  }

  lemma MoveOneSlot(v: seq<Option<int>>, names: map<string, int>, path: string, kept: nat, i: nat)
    requires |v| == kept + 1 > 1 && 1 <= i <= kept
    requires ShiftedAbove(v, names, path, kept, i)
    ensures Slot(path, i - 1) != Slot(path, i)
    ensures ShiftedAbove(v, Moved(names, Slot(path, i - 1), Slot(path, i)), path, kept, i - 1)
  {
    var from, to := Slot(path, i - 1), Slot(path, i);
    if from == to {
      SlotInjective(path, i - 1, i);
    }
    var names' := Moved(names, from, to);
    forall j | 0 <= j <= kept && j != i && j != i - 1
      ensures Lookup(names', Slot(path, j)) == Lookup(names, Slot(path, j))
    {
      if Slot(path, j) == from {
        SlotInjective(path, j, i - 1);
      }
      if Slot(path, j) == to {
        SlotInjective(path, j, i);
      }
    }
    assert Lookup(names, from) == v[i - 1];
    assert Lookup(names', from) == None;
    assert Lookup(names', to) == Shifted(v, 0)[i];
  }

  lemma MoveKeepsOthers(before: map<string, int>, names: map<string, int>, path: string, kept: nat, i: nat)
    requires 1 <= i <= kept && Slot(path, i - 1) != Slot(path, i) && OthersKept(before, names, path, kept)
    ensures OthersKept(before, Moved(names, Slot(path, i - 1), Slot(path, i)), path, kept)
  {
    var from, to := Slot(path, i - 1), Slot(path, i);
    assert InFamily(from, path, kept) && InFamily(to, path, kept);
  }

  /** One turn of the rename loop. Only the last slot may be occupied, and it is removed
      first, so the rename replaces nothing. */
  method MoveSlot(fs: FileSystem, from: string, to: string, last: bool)
    requires fs.Valid() && from != to && (to in fs.disk.names ==> last)
    modifies fs
    ensures fs.Valid() && fs.disk == old(fs.disk).(names := Moved(old(fs.disk.names), from, to))
    ensures fs.overwritten == old(fs.overwritten)
  {
    var found := fs.Exists(from);
    if found {
      if last {
        fs.Remove(to);
      }
      fs.Rename(from, to);
    }
  }

  lemma ShiftStarts(names: map<string, int>, path: string, kept: nat)
    requires kept > 0
    ensures ShiftedAbove(View(names, path, kept), names, path, kept, kept) && OthersKept(names, names, path, kept)
  {
  }

  lemma FreeSlot(v: seq<Option<int>>, names: map<string, int>, path: string, kept: nat, i: nat)
    requires |v| == kept + 1 > 1 && i <= kept && ShiftedAbove(v, names, path, kept, i) && Slot(path, i) in names
    ensures i == kept
  {
  }

  /** The rename loop, from the oldest slot down, for every pattern of present and missing
      files. It never renames onto an existing file, and it changes no file's contents. */
  method ShiftFiles(fs: FileSystem, path: string, kept: nat)
    requires fs.Valid() && kept > 0
    modifies fs
    ensures fs.Valid() && fs.disk.data == old(fs.disk.data)
    ensures ShiftedAbove(View(old(fs.disk.names), path, kept), fs.disk.names, path, kept, 0)
    ensures OthersKept(old(fs.disk.names), fs.disk.names, path, kept)
    ensures fs.overwritten == old(fs.overwritten)
  {
    ghost var before := fs.disk.names;
    ghost var v := View(before, path, kept);
    ShiftStarts(before, path, kept);
    hide *;
    var i := kept;
    while i >= 1
      invariant 0 <= i <= kept
      invariant fs.Valid() && fs.disk.data == old(fs.disk.data)
      invariant ShiftedAbove(v, fs.disk.names, path, kept, i)
      invariant OthersKept(before, fs.disk.names, path, kept)
      invariant fs.overwritten == old(fs.overwritten)
    {
      MoveOneSlot(v, fs.disk.names, path, kept, i);
      MoveKeepsOthers(before, fs.disk.names, path, kept, i);
      if Slot(path, i) in fs.disk.names {
        FreeSlot(v, fs.disk.names, path, kept, i);
      }
      MoveSlot(fs, Slot(path, i - 1), Slot(path, i), i == kept);
      i := i - 1;
    }
  }

  /** The whole effect of one rotation on the disk; the new live file is file `live`. */
  ghost predicate IsRotation(before: Disk, after: Disk, path: string, kept: nat, live: int)
    requires kept > 0
  {
    && live == |before.data|
    && after.data == before.data + [""]
    && View(after.names, path, kept) == Shifted(View(before.names, path, kept), live)
    && OthersKept(before.names, after.names, path, kept)
  }

  /** Rotation: the files are shifted and a new live file is opened. */
  method RotateFiles(fs: FileSystem, path: string, kept: nat) returns (live: int)
    requires fs.Valid() && kept > 0
    modifies fs
    ensures fs.Valid() && IsRotation(old(fs.disk), fs.disk, path, kept, live)
    ensures fs.overwritten == old(fs.overwritten)
  {
    ghost var v := View(fs.disk.names, path, kept);
    ShiftFiles(fs, path, kept);
    ghost var names := fs.disk.names;
    assert Slot(path, 0) == path;
    live := fs.OpenTruncate(path);
    OpeningLive(v, names, path, kept, live);
    OpeningKeepsOthers(old(fs.disk.names), names, path, kept, live);
  }

  lemma OpeningLive(v: seq<Option<int>>, names: map<string, int>, path: string, kept: nat, live: int)
    requires |v| == kept + 1 > 1 && ShiftedAbove(v, names, path, kept, 0)
    ensures View(names[path := live], path, kept) == Shifted(v, live)
  {
    forall j | 0 < j <= kept ensures Lookup(names[path := live], Slot(path, j)) == Shifted(v, live)[j] {
      if Slot(path, j) == path {
        SlotInjective(path, j, 0);
      }
      assert Shifted(v, live)[j] == Shifted(v, 0)[j];
    }
  }

  lemma OpeningKeepsOthers(before: map<string, int>, names: map<string, int>, path: string, kept: nat, live: int)
    requires OthersKept(before, names, path, kept)
    ensures OthersKept(before, names[path := live], path, kept)
  {
    assert Slot(path, 0) == path && InFamily(path, path, kept);
  }

  // ----- What the files hold -----

  lemma LiveIs(before: Disk, after: Disk, path: string, kept: nat, live: int)
    requires kept > 0 && IsRotation(before, after, path, kept, live)
    ensures path in after.names && after.names[path] == live
  {
    assert Slot(path, 0) == path && View(after.names, path, kept)[0] == Some(live);
  }

  /** What a slot that denotes this file holds. */
  function ContentsOf(data: seq<string>, file: Option<int>): Option<string>
    requires file.Some? ==> 0 <= file.value < |data|
  {
    if file.Some? then Some(data[file.value]) else None
  }

  lemma FilesAt(d: Disk, name: string)
    requires d.Valid()
    ensures var file := Lookup(d.names, name);
            (file.Some? ==> 0 <= file.value < |d.data|) && Lookup(d.Files(), name) == ContentsOf(d.data, file)
  {
  }

  /** Shifting the files that the slots denote shifts what the slots hold. */
  lemma ShiftedContents(v: seq<Option<int>>, data: seq<string>, j: nat)
    requires |v| > 1 && j < |v| && forall i :: 0 <= i < |v| && v[i].Some? ==> 0 <= v[i].value < |data|
    ensures var f := Shifted(v, |data|)[j];
            && (f.Some? ==> 0 <= f.value <= |data|)
            && ContentsOf(data + [""], f)
               == Rotated(seq(|v|, i requires 0 <= i < |v| => ContentsOf(data, v[i])))[j]
  {
  }

  /** What the slots hold is what the files they denote hold. */
  lemma ViewOfFiles(d: Disk, path: string, kept: nat)
    requires d.Valid()
    ensures var v := View(d.names, path, kept);
            && (forall i :: 0 <= i < |v| && v[i].Some? ==> 0 <= v[i].value < |d.data|)
            && View(d.Files(), path, kept) == seq(|v|, i requires 0 <= i < |v| => ContentsOf(d.data, v[i]))
  {
    hide *;
    var v := View(d.names, path, kept);
    forall i | 0 <= i < |v|
      ensures (v[i].Some? ==> 0 <= v[i].value < |d.data|) && View(d.Files(), path, kept)[i] == ContentsOf(d.data, v[i])
    {
      FilesAt(d, Slot(path, i));
    }
  }

  lemma RotatedSlot(before: Disk, after: Disk, path: string, kept: nat, live: int, j: nat)
    requires before.Valid() && after.Valid() && kept > 0 && IsRotation(before, after, path, kept, live) && j <= kept
    ensures Lookup(after.Files(), Slot(path, j)) == Rotated(View(before.Files(), path, kept))[j]
  {
    hide *;
    ViewOfFiles(before, path, kept);
    ShiftedContents(View(before.names, path, kept), before.data, j);
    FilesAt(after, Slot(path, j));
    RotationAt(before, after, path, kept, live, j);
  }

  lemma RotationAt(before: Disk, after: Disk, path: string, kept: nat, live: int, j: nat)
    requires kept > 0 && IsRotation(before, after, path, kept, live) && j <= kept
    ensures Lookup(after.names, Slot(path, j)) == Shifted(View(before.names, path, kept), live)[j]
    ensures after.data == before.data + [""] && live == |before.data|
  {
    assert Lookup(after.names, Slot(path, j)) == View(after.names, path, kept)[j];
  }

  /** Seen by contents, a rotation shifts the family and leaves the other files alone. */
  lemma RotationOfFiles(before: Disk, after: Disk, path: string, kept: nat, live: int)
    requires before.Valid() && after.Valid() && kept > 0 && IsRotation(before, after, path, kept, live)
    ensures View(after.Files(), path, kept) == Rotated(View(before.Files(), path, kept))
    ensures OthersKept(before.Files(), after.Files(), path, kept)
  {
    hide Disk.Files, Slot, Disk.Valid, Rotated, Shifted, InFamily;
    forall j | 0 <= j <= kept
      ensures Lookup(after.Files(), Slot(path, j)) == Rotated(View(before.Files(), path, kept))[j]
    {
      RotatedSlot(before, after, path, kept, live, j);
    }
    forall name | !InFamily(name, path, kept) ensures Lookup(after.Files(), name) == Lookup(before.Files(), name) {
      FilesAt(before, name);
      FilesAt(after, name);
      assert Lookup(after.names, name) == Lookup(before.names, name);
    }
  }

  /** Writing to the live file changes slot 0 and nothing else. */
  lemma AppendToLive(d: Disk, path: string, kept: nat, text: string)
    requires d.Valid() && path in d.names
    ensures var after := d.WithText(d.names[path], text);
            && after.Valid()
            && View(after.Files(), path, kept)
               == View(d.Files(), path, kept)[0 := Some(d.Files()[path] + text)]
            && OthersKept(d.Files(), after.Files(), path, kept)
  {
    var after := d.WithText(d.names[path], text);
    assert Slot(path, 0) == path && InFamily(path, path, kept);
    forall j | 0 < j <= kept ensures Lookup(after.Files(), Slot(path, j)) == Lookup(d.Files(), Slot(path, j)) {
      if Slot(path, j) == path {
        SlotInjective(path, j, 0);
      }
    }
  }

  lemma KeptTwice<T>(a: map<string, T>, b: map<string, T>, c: map<string, T>, path: string, kept: nat)
    requires OthersKept(a, b, path, kept) && OthersKept(b, c, path, kept)
    ensures OthersKept(a, c, path, kept)
  {
  }
}
