/** What a family of rotated files still holds after any number of writes. */
module RotationHistory {
  import opened Text
  import opened Rotation

  const TWO_63 := 0x8000_0000_0000_0000
  const TWO_64 := 0x1_0000_0000_0000_0000

  /** The unsigned size type of the program. */
  type SizeT = n: nat | n < TWO_64

  /** A size limit as the signed stream position it is compared with. */
  function AsStreamPos(maxSize: nat): int { if maxSize < TWO_63 then maxSize else maxSize - TWO_64 }

  predicate Due(size: nat, maxSize: nat) { maxSize != 0 && size >= AsStreamPos(maxSize) }

  /** One write: the family rotates first when the live file has reached the limit. */
  function Written(v: seq<Option<string>>, maxSize: nat, text: string): (r: seq<Option<string>>)
    requires v != [] && v[0].Some?
    ensures |r| == |v| && r[0].Some?
  {
    var u := if |v| > 1 && Due(|v[0].value|, maxSize) then Rotated(v) else v;
    u[0 := Some(u[0].value + text)]
  }

  /** A message on its way to the log at `path`. */
  datatype Entry = Entry(path: string, text: string)

  /** The family of the entry's log has one more text, and every other file is as it was. */
  ghost predicate Wrote(before: Disk, after: Disk, e: Entry, kept: nat, maxSize: nat) {
    && before.Valid() && after.Valid()
    && e.path in before.names && View(before.Files(), e.path, kept)[0].Some?
    && View(after.Files(), e.path, kept) == Written(View(before.Files(), e.path, kept), maxSize, e.text)
    && OthersKept(before.Files(), after.Files(), e.path, kept)
  }

  function AllWritten(v: seq<Option<string>>, maxSize: nat, texts: seq<string>): (r: seq<Option<string>>)
    requires v != [] && v[0].Some?
    ensures |r| == |v| && r[0].Some?
    decreases texts
  {
    if texts == [] then v
    else Written(AllWritten(v, maxSize, texts[..|texts| - 1]), maxSize, texts[|texts| - 1])
  }

  lemma AllWrittenLast(v: seq<Option<string>>, maxSize: nat, texts: seq<string>, text: string)
    requires v != [] && v[0].Some?
    ensures AllWritten(v, maxSize, texts + [text]) == Written(AllWritten(v, maxSize, texts), maxSize, text)
  {
    assert (texts + [text])[..|texts|] == texts;
  }

  function Concat(texts: seq<string>): string {
    if texts == [] then "" else Concat(texts[..|texts| - 1]) + texts[|texts| - 1]
  }

  // ----- Which writes each file holds -----

  /** One file as a run leaves it: the texts it held when the run began, and those that
      the run added. */
  datatype LogFile = LogFile(past: seq<string>, added: seq<string>) {
    function Texts(): seq<string> { past + added }

    function Bytes(): string { Concat(Texts()) }
  }

  const EMPTY := LogFile([], [])

  /** The files of a family, the live one first; any of the others may be missing. */
  type Layout = seq<Option<LogFile>>

  predicate IsLayout(l: Layout) { l != [] && l[0].Some? }

  function BytesIn(f: Option<LogFile>): Option<string> { if f.Some? then Some(f.value.Bytes()) else None }

  function Files(l: Layout): (v: seq<Option<string>>)
    ensures |v| == |l| && forall i :: 0 <= i < |l| ==> v[i] == BytesIn(l[i])
  {
    seq(|l|, i requires 0 <= i < |l| => BytesIn(l[i]))
  }

  /** Every family is the family of some layout. */
  function LayoutOf(v: seq<Option<string>>): (l: Layout)
    ensures |l| == |v|
    ensures forall i :: 0 <= i < |v| ==> l[i] == if v[i].Some? then Some(LogFile([v[i].value], [])) else None
  {
    seq(|v|, i requires 0 <= i < |v| => if v[i].Some? then Some(LogFile([v[i].value], [])) else None)
  }

  lemma FilesOfLayoutOf(v: seq<Option<string>>)
    ensures Files(LayoutOf(v)) == v
  {
    forall i | 0 <= i < |v| ensures Files(LayoutOf(v))[i] == v[i] {
      if v[i].Some? {
        ConcatOne(v[i].value);
        assert [v[i].value] + [] == [v[i].value];
      }
    }
  }

  function WithText(f: LogFile, text: string): LogFile { f.(added := f.added + [text]) }

  predicate RotatesNow(l: Layout, maxSize: nat)
    requires IsLayout(l)
  {
    |l| > 1 && Due(|l[0].value.Bytes()|, maxSize)
  }

  /** Where the text goes: a new file when the live one has reached the limit. */
  function Ready(l: Layout, maxSize: nat): (m: Layout)
    requires IsLayout(l)
    ensures IsLayout(m) && |m| == |l|
  {
    if RotatesNow(l, maxSize) then Shifted(l, EMPTY) else l
  }

  function After(l: Layout, maxSize: nat, text: string): (r: Layout)
    requires IsLayout(l)
    ensures IsLayout(r) && |r| == |l|
  {
    var m := Ready(l, maxSize);
    m[0 := Some(WithText(m[0].value, text))]
  }

  function AfterAll(l: Layout, maxSize: nat, texts: seq<string>): (r: Layout)
    requires IsLayout(l)
    ensures IsLayout(r) && |r| == |l|
    decreases texts
  {
    if texts == [] then l else After(AfterAll(l, maxSize, texts[..|texts| - 1]), maxSize, texts[|texts| - 1])
  }

  lemma AfterAllLast(l: Layout, maxSize: nat, texts: seq<string>) returns (front: seq<string>, text: string)
    requires IsLayout(l) && texts != []
    ensures texts == front + [text] && |front| < |texts|
    ensures AfterAll(l, maxSize, texts) == After(AfterAll(l, maxSize, front), maxSize, text)
  {
    front, text := texts[..|texts| - 1], texts[|texts| - 1];
  }

  lemma AfterNothing(l: Layout, maxSize: nat)
    requires IsLayout(l)
    ensures AfterAll(l, maxSize, []) == l && Held(l) + [] == Held(l)
  {
  }

  lemma ConcatOne(text: string)
    ensures Concat([text]) == text
  {
    assert [text][..0] == [] && "" + text == text;
  }

  lemma OneMoreText(f: LogFile, text: string)
    ensures WithText(f, text).Texts() == f.Texts() + [text] && WithText(f, text).Bytes() == f.Bytes() + text
  {
    var texts := f.Texts();
    assert f.past + (f.added + [text]) == texts + [text];
    assert (texts + [text])[..|texts|] == texts;
  }

  lemma ShiftIsRotation(l: Layout)
    requires IsLayout(l) && |l| > 1
    ensures Files(Shifted(l, EMPTY)) == Rotated(Files(l))
  {
    var v, w := Files(l), Files(Shifted(l, EMPTY));
    assert EMPTY.Bytes() == "";
    forall i | 0 <= i < |l| ensures w[i] == Rotated(v)[i] {
      assert w[i] == BytesIn(Shifted(l, EMPTY)[i]);
    }
  }

  lemma AfterIsWritten(l: Layout, maxSize: nat, text: string)
    requires IsLayout(l)
    ensures Files(After(l, maxSize, text)) == Written(Files(l), maxSize, text)
  {
    var m := Ready(l, maxSize);
    if RotatesNow(l, maxSize) {
      ShiftIsRotation(l);
    }
    OneMoreText(m[0].value, text);
    assert Files(After(l, maxSize, text)) == Files(m)[0 := Some(Files(m)[0].value + text)];
  }

  /** The layout says what the bytes of the files are after any run of writes. */
  lemma {:induction false} AfterAllIsWritten(l: Layout, maxSize: nat, texts: seq<string>)
    requires IsLayout(l)
    ensures Files(AfterAll(l, maxSize, texts)) == AllWritten(Files(l), maxSize, texts)
    decreases texts
  {
    if texts != [] {
      AfterAllIsWritten(l, maxSize, texts[..|texts| - 1]);
      AfterIsWritten(AfterAll(l, maxSize, texts[..|texts| - 1]), maxSize, texts[|texts| - 1]);
    }
  }

  lemma AfterReady(l: Layout, maxSize: nat, text: string)
    requires IsLayout(l) && !RotatesNow(l, maxSize)
    ensures After(l, maxSize, text) == l[0 := Some(l[0].value.(added := l[0].value.added + [text]))]
  {
  }

  /** With limit 0, or with no rotated slots, the family never rotates: everything goes to
      the end of the live file, and the other files stay. */
  lemma {:induction false} NoLimitNeverRotates(l: Layout, maxSize: nat, texts: seq<string>)
    requires IsLayout(l) && (maxSize == 0 || |l| == 1)
    ensures AfterAll(l, maxSize, texts) == l[0 := Some(l[0].value.(added := l[0].value.added + texts))]
    decreases texts
  {
    if texts == [] {
      assert l[0].value.added + [] == l[0].value.added;
    } else {
      var front, text := AfterAllLast(l, maxSize, texts);
      NoLimitNeverRotates(l, maxSize, front);
      var m := AfterAll(l, maxSize, front);
      AfterReady(m, maxSize, text);
      assert l[0].value.added + texts == (l[0].value.added + front) + [text];
    }
  }

  /** A limit of 2^63 or more is negative as a stream position, as a negative setting is after
      its cast: every write rotates first, whatever the live file holds. */
  lemma HugeLimitRotatesAlways(l: Layout, maxSize: SizeT, text: string)
    requires IsLayout(l) && |l| > 1 && maxSize >= 9223372036854775808
    ensures var r := After(l, maxSize, text);
            r[0] == Some(LogFile([], [text])) && r[1] == l[0]
  {
    hide LogFile.Bytes;
    assert [] + [text] == [text];
  }

  /** Between these the live file rotates exactly when it has reached the limit. */
  lemma RotatesAtLimit(l: Layout, maxSize: nat)
    requires IsLayout(l) && |l| > 1 && 0 < maxSize < 9223372036854775808
    ensures RotatesNow(l, maxSize) <==> |Concat(l[0].value.past + l[0].value.added)| >= maxSize
  {
    hide Concat;
  }

  // ----- A suffix of history -----

  function TextsIn(f: Option<LogFile>): seq<string> { if f.Some? then f.value.Texts() else [] }

  /** Everything the family holds, oldest first. */
  function Held(l: Layout): seq<string> {
    if l == [] then [] else Held(l[1..]) + TextsIn(l[0])
  }

  predicate IsSuffix(s: seq<string>, all: seq<string>) { |s| <= |all| && s == all[|all| - |s|..] }

  lemma {:induction false} HeldConcat(a: Layout, b: Layout)
    ensures Held(a + b) == Held(b) + Held(a)
  {
    if a == [] {
      assert a + b == b;
    } else {
      assert (a + b)[1..] == a[1..] + b;
      HeldConcat(a[1..], b);
    }
  }

  lemma HeldOne(f: Option<LogFile>)
    ensures Held([f]) == TextsIn(f)
  {
    assert Held([f]) == Held([]) + TextsIn(f);
  }

  /** Does the rotation lose the oldest file? */
  predicate Drops(l: Layout) { |l| > 1 && l[|l| - 2].Some? && l[|l| - 1].Some? }

  /** The last two slots, and what the last one holds after a rotation. */
  lemma LastTwo(l: Layout)
    requires IsLayout(l) && |l| > 1
    ensures var n := |l|;
            var young, x, y := l[..n - 2], l[n - 2], l[n - 1];
            && l == young + ([x] + [y])
            && Shifted(l, EMPTY) == [Some(EMPTY)] + (young + [if x.Some? then x else y])
  {
  }

  /** A rotation keeps everything but the last file, and that one too unless the one
      before it is there. */
  lemma HeldShifted(l: Layout)
    requires IsLayout(l) && |l| > 1
    ensures Held(l) == (if Drops(l) then TextsIn(l[|l| - 1]) else []) + Held(Shifted(l, EMPTY))
  {
    var young, x, y := l[..|l| - 2], l[|l| - 2], l[|l| - 1];
    var z := if x.Some? then x else y;
    assert Drops(l) <==> x.Some? && y.Some?;
    LastTwo(l);
    hide *;
    HeldConcat(young, [x] + [y]);
    HeldConcat([x], [y]);
    HeldConcat([Some(EMPTY)], young + [z]);
    HeldConcat(young, [z]);
    HeldOne(x);
    HeldOne(y);
    HeldOne(z);
    HeldOne(Some(EMPTY));
    NoTexts();
    JoinsAgain(TextsIn(x), TextsIn(y), TextsIn(z), Held(young), Drops(l));
  }

  lemma NoTexts()
    ensures TextsIn(Some(EMPTY)) == [] && TextsIn(None) == []
  {
  }

  lemma JoinsAgain(x: seq<string>, y: seq<string>, z: seq<string>, young: seq<string>, drops: bool)
    requires if drops then z == x else y + x == z
    ensures y + x + young == (if drops then y else []) + (z + young + [])
  {
  }

  lemma HeldWithText(m: Layout, text: string)
    requires IsLayout(m)
    ensures Held(m[0 := Some(WithText(m[0].value, text))]) == Held(m) + [text]
  {
    OneMoreText(m[0].value, text);
    assert m[0 := Some(WithText(m[0].value, text))][1..] == m[1..];
    assert Held(m[1..]) + (m[0].value.Texts() + [text]) == Held(m[1..]) + m[0].value.Texts() + [text];
  }

  /** What one write drops: the oldest file, when the family rotates while its last two
      slots are occupied, and nothing otherwise. */
  function Dropped(l: Layout, maxSize: nat): seq<string>
    requires IsLayout(l)
  {
    if RotatesNow(l, maxSize) && Drops(l) then TextsIn(l[|l| - 1]) else []
  }

  lemma HeldReady(l: Layout, maxSize: nat)
    requires IsLayout(l)
    ensures Held(l) == Dropped(l, maxSize) + Held(Ready(l, maxSize))
  {
    if RotatesNow(l, maxSize) {
      HeldShifted(l);
    } else {
      assert [] + Held(l) == Held(l);
    }
  }

  /** One write keeps everything else, in order, and adds its text. */
  lemma HeldAfter(l: Layout, maxSize: nat, text: string)
    requires IsLayout(l)
    ensures Held(l) + [text] == Dropped(l, maxSize) + Held(After(l, maxSize, text))
  {
    HeldWithText(Ready(l, maxSize), text);
    hide *;
    HeldReady(l, maxSize);
    Assoc(Dropped(l, maxSize), Held(Ready(l, maxSize)), text);
    AfterIs(l, maxSize, text);
  }

  lemma AfterIs(l: Layout, maxSize: nat, text: string)
    requires IsLayout(l)
    ensures var m := Ready(l, maxSize); After(l, maxSize, text) == m[0 := Some(WithText(m[0].value, text))]
  {
  }

  lemma SuffixSteps(held: seq<string>, all: seq<string>, text: string, dropped: seq<string>, rest: seq<string>)
    requires IsSuffix(held, all) && held + [text] == dropped + rest
    ensures IsSuffix(rest, all + [text])
  {
    var longer := all + [text];
    assert longer[|longer| - |held| - 1..] == held + [text];
    assert longer[|longer| - |rest|..] == (held + [text])[|dropped|..];
  }

  lemma SuffixAfter(m: Layout, maxSize: nat, all: seq<string>, text: string)
    requires IsLayout(m) && IsSuffix(Held(m), all)
    ensures IsSuffix(Held(After(m, maxSize, text)), all + [text])
  {
    hide *;
    HeldAfter(m, maxSize, text);
    SuffixSteps(Held(m), all, text, Dropped(m, maxSize), Held(After(m, maxSize, text)));
  }

  lemma Assoc(a: seq<string>, b: seq<string>, text: string)
    ensures a + b + [text] == a + (b + [text])
  {
  }

  /** What a family holds is always a suffix of what was ever written to it, whichever
      files were missing at the start. */
  lemma {:induction false} HeldIsSuffix(l: Layout, maxSize: nat, texts: seq<string>)
    requires IsLayout(l)
    ensures IsSuffix(Held(AfterAll(l, maxSize, texts)), Held(l) + texts)
    decreases texts
  {
    if texts == [] {
      AfterNothing(l, maxSize);
    } else {
      hide *;
      var front, text := AfterAllLast(l, maxSize, texts);
      HeldIsSuffix(l, maxSize, front);
      SuffixAfter(AfterAll(l, maxSize, front), maxSize, Held(l) + front, text);
      Assoc(Held(l), front, text);
    }
  }

  // ----- Bounds from below -----

  /** No file is missing in front of one that is there. */
  ghost predicate GapFree(l: Layout) {
    forall i, j :: 0 <= i < j < |l| && l[j].Some? ==> l[i].Some?
  }

  /** Every rotated file holds at least `n` bytes. */
  ghost predicate Full(l: Layout, n: nat) {
    forall k :: 0 < k < |l| && l[k].Some? ==> |l[k].value.Bytes()| >= n
  }

  lemma {:induction false} ConcatConcat(a: seq<string>, b: seq<string>)
    ensures Concat(a + b) == Concat(a) + Concat(b)
  {
    if b == [] {
      assert a + b == a;
    } else {
      assert (a + b)[..|a + b| - 1] == a + b[..|b| - 1];
      ConcatConcat(a, b[..|b| - 1]);
    }
  }

  function Times(k: nat, n: nat): nat { if k == 0 then 0 else Times(k - 1, n) + n }

  lemma {:induction false} TimesIs(k: nat, n: nat)
    ensures Times(k, n) == k * n
  {
    if k > 0 {
      TimesIs(k - 1, n);
      assert k * n == (k - 1) * n + n;
    }
  }

  lemma HeldBytes(l: Layout)
    requires l != []
    ensures |Concat(Held(l))| == |Concat(Held(l[1..]))| + if l[0].Some? then |l[0].value.Bytes()| else 0
  {
    ConcatConcat(Held(l[1..]), TextsIn(l[0]));
    hide Concat;
    if l[0].None? {
      assert Held(l[1..]) + [] == Held(l[1..]);
    }
  }

  ghost predicate AllFull(l: Layout, n: nat) {
    forall k :: 0 <= k < |l| ==> l[k].Some? && |l[k].value.Bytes()| >= n
  }

  lemma AllFullTail(l: Layout, n: nat)
    requires AllFull(l, n) && l != []
    ensures AllFull(l[1..], n) && l[0].Some? && |l[0].value.Bytes()| >= n
  {
    hide LogFile.Bytes;
  }

  lemma {:induction false} BytesFromBelow(l: Layout, n: nat)
    requires AllFull(l, n)
    ensures |Concat(Held(l))| >= Times(|l|, n)
  {
    if l != [] {
      HeldBytes(l);
      AllFullTail(l, n);
      hide AllFull, Concat, Held, LogFile.Bytes;
      BytesFromBelow(l[1..], n);
    }
  }

  ghost predicate AllThere(l: Layout) { forall k :: 0 <= k < |l| ==> l[k].Some? }

  /** As long as something is missing, all rotated files are there, each of them full. */
  ghost predicate Retains(l: Layout, maxSize: nat, all: seq<string>) {
    GapFree(l) && Full(l, maxSize) && (Held(l) == all || AllThere(l))
  }

  lemma ShiftedIsFull(l: Layout, maxSize: nat)
    requires IsLayout(l) && |l| > 1 && GapFree(l) && Full(l, maxSize) && |l[0].value.Bytes()| >= maxSize
    ensures var m := Shifted(l, EMPTY);
            GapFree(m) && Full(m, maxSize) && (Drops(l) || AllThere(l) ==> AllThere(m))
  {
    hide LogFile.Bytes;
    var m := Shifted(l, EMPTY);
    assert forall k :: 0 < k < |m| - 1 ==> m[k] == l[k - 1];
  }

  lemma AfterIsFull(l: Layout, maxSize: nat, text: string)
    requires IsLayout(l) && GapFree(l) && Full(l, maxSize) && 0 < maxSize < TWO_63
    ensures var r := After(l, maxSize, text);
            && GapFree(r) && Full(r, maxSize)
            && ((RotatesNow(l, maxSize) && Drops(l)) || AllThere(l) ==> AllThere(r))
  {
    hide LogFile.Bytes, Shifted, Drops;
    if RotatesNow(l, maxSize) {
      ShiftedIsFull(l, maxSize);
    }
  }

  lemma RetainsAfter(l: Layout, maxSize: nat, all: seq<string>, text: string)
    requires IsLayout(l) && Retains(l, maxSize, all) && 0 < maxSize < TWO_63
    ensures Retains(After(l, maxSize, text), maxSize, all + [text])
  {
    AfterIsFull(l, maxSize, text);
    HeldAfter(l, maxSize, text);
    hide After, GapFree, Full, Held, AllThere, TextsIn, RotatesNow, Drops;
    assert [] + Held(After(l, maxSize, text)) == Held(After(l, maxSize, text));
  }

  lemma {:induction false} RetainsAlways(l: Layout, maxSize: nat, texts: seq<string>)
    requires IsLayout(l) && GapFree(l) && Full(l, maxSize) && 0 < maxSize < TWO_63
    ensures Retains(AfterAll(l, maxSize, texts), maxSize, Held(l) + texts)
    decreases texts
  {
    if texts == [] {
      AfterNothing(l, maxSize);
    } else {
      hide *;
      var front, text := AfterAllLast(l, maxSize, texts);
      RetainsAlways(l, maxSize, front);
      RetainsAfter(AfterAll(l, maxSize, front), maxSize, Held(l) + front, text);
      Assoc(Held(l), front, text);
    }
  }

  /** Either nothing was dropped, or at least (slots - 1) * maxSize of the newest bytes are
      still there, for every family without gaps whose rotated files are full. */
  lemma RetainedFromBelow(l: Layout, maxSize: nat, texts: seq<string>)
    requires IsLayout(l) && GapFree(l) && Full(l, maxSize) && 0 < maxSize < TWO_63
    ensures var end := AfterAll(l, maxSize, texts);
            Held(end) == Held(l) + texts || |Concat(Held(end))| >= (|l| - 1) * maxSize
  {
    var end := AfterAll(l, maxSize, texts);
    RetainsAlways(l, maxSize, texts);
    if Held(end) != Held(l) + texts {
      assert AllFull(end[1..], maxSize);
      BytesFromBelow(end[1..], maxSize);
      HeldBytes(end);
      TimesIs(|l| - 1, maxSize);
    }
    hide AfterAll, Concat, Times, GapFree, Held;
  }

  /** It rests on there being no gap: with one in slot 1, the first rotation already loses
      the oldest file, and what is left is less than three full files. */
  lemma GapLosesMore(live: LogFile, second: LogFile, third: LogFile, maxSize: nat, text: string)
    requires 0 < maxSize < TWO_63 && |text| < maxSize && third.Texts() != []
    requires |live.Bytes()| == |second.Bytes()| == maxSize
    ensures var l := [Some(live), None, Some(second), Some(third)];
            var held := Held(After(l, maxSize, text));
            held != Held(l) + [text] && |Concat(held)| < (|l| - 1) * maxSize
  {
    var l := [Some(live), None, Some(second), Some(third)];
    GapMovesUp(live, second, third, maxSize, text);
    HeldAfter(l, maxSize, text);
    OneMoreText(EMPTY, text);
    hide *;
    ThreeFiles(WithText(EMPTY, text), live, second);
  }

  lemma GapMovesUp(live: LogFile, second: LogFile, third: LogFile, maxSize: nat, text: string)
    requires 0 < maxSize < TWO_63 && |live.Bytes()| == maxSize && third.Texts() != []
    ensures var l := [Some(live), None, Some(second), Some(third)];
            && IsLayout(l) && Dropped(l, maxSize) != []
            && After(l, maxSize, text) == [Some(WithText(EMPTY, text)), Some(live), None, Some(second)]
    ensures EMPTY.Bytes() == ""
  {
    hide LogFile.Bytes, LogFile.Texts, WithText;
    assert EMPTY.Bytes() == "" by {
      NoBytes();
    }
  }

  lemma NoBytes()
    ensures EMPTY.Bytes() == ""
  {
  }

  lemma ThreeFiles(a: LogFile, b: LogFile, c: LogFile)
    ensures |Concat(Held([Some(a), Some(b), None, Some(c)]))| == |a.Bytes()| + |b.Bytes()| + |c.Bytes()|
  {
    var r: Layout := [Some(a), Some(b), None, Some(c)];
    HeldBytes(r);
    HeldBytes(r[1..]);
    HeldBytes(r[2..]);
    HeldBytes(r[3..]);
    assert r[1..][1..] == r[2..] && r[2..][1..] == r[3..] && r[3..][1..] == [];
    assert |Concat(Held([]))| == 0;
    hide Held, Concat, LogFile.Bytes;
  }

  // ----- Bounds from above -----

  /** A file after a write is the live one, within the bound, or was there before. */
  lemma FileAfter(l: Layout, maxSize: nat, text: string, longest: nat, k: nat)
    requires IsLayout(l) && |l| > 1 && 0 < maxSize < TWO_63 && |text| <= longest && k < |l|
    ensures var r := After(l, maxSize, text);
            r[k].Some? ==> || |r[k].value.Bytes()| <= maxSize - 1 + longest
                           || exists j :: 0 <= j < |l| && r[k] == l[j]
  {
    var m := Ready(l, maxSize);
    if k == 0 {
      OneMoreText(m[0].value, text);
      assert EMPTY.Bytes() == "";
    } else if RotatesNow(l, maxSize) {
      assert m[k] == l[k - 1] || m[k] == l[k];
    }
  }

  /** Every file to which the run added something is within the bound. */
  ghost predicate FilledWithin(l: Layout, n: nat) {
    forall k :: 0 <= k < |l| && l[k].Some? && l[k].value.added != [] ==> |l[k].value.Bytes()| <= n
  }

  ghost predicate AllWithin(l: Layout, n: nat) {
    forall k :: 0 <= k < |l| && l[k].Some? ==> |l[k].value.Bytes()| <= n
  }

  lemma WithinAfter(l: Layout, maxSize: nat, text: string, longest: nat)
    requires IsLayout(l) && |l| > 1 && 0 < maxSize < TWO_63 && |text| <= longest
    ensures FilledWithin(l, maxSize - 1 + longest) ==> FilledWithin(After(l, maxSize, text), maxSize - 1 + longest)
    ensures AllWithin(l, maxSize - 1 + longest) ==> AllWithin(After(l, maxSize, text), maxSize - 1 + longest)
  {
    forall k | 0 <= k < |l|
      ensures var r := After(l, maxSize, text);
              r[k].Some? ==> || |r[k].value.Bytes()| <= maxSize - 1 + longest
                             || exists j :: 0 <= j < |l| && r[k] == l[j]
    {
      FileAfter(l, maxSize, text, longest, k);
    }
    hide After, LogFile.Bytes;
  }

  /** The files of a family at the start of a run. */
  ghost predicate NothingAdded(l: Layout) { forall k :: 0 <= k < |l| && l[k].Some? ==> l[k].value.added == [] }

  /** From every start, gaps and oversized files included, no file that the run filled ever
      exceeds maxSize - 1 + longest bytes, where no text is longer than `longest`; and no
      file at all does if none did at the start. */
  lemma {:induction false} EveryFileBounded(l: Layout, maxSize: nat, texts: seq<string>, longest: nat)
    requires IsLayout(l) && |l| > 1 && NothingAdded(l) && 0 < maxSize < TWO_63
    requires forall t <- texts :: |t| <= longest
    ensures FilledWithin(AfterAll(l, maxSize, texts), maxSize - 1 + longest)
    ensures AllWithin(l, maxSize - 1 + longest) ==> AllWithin(AfterAll(l, maxSize, texts), maxSize - 1 + longest)
    decreases texts
  {
    if texts == [] {
      AfterNothing(l, maxSize);
    } else {
      hide *;
      var front, text := AfterAllLast(l, maxSize, texts);
      assert forall t <- front :: t in texts;
      assert text in texts;
      EveryFileBounded(l, maxSize, front, longest);
      WithinAfter(AfterAll(l, maxSize, front), maxSize, text, longest);
    }
  }

  lemma {:induction false} BytesFromAbove(l: Layout, n: nat)
    requires AllWithin(l, n)
    ensures |Concat(Held(l))| <= Times(|l|, n)
  {
    if l != [] {
      HeldBytes(l);
      hide Concat, Held, LogFile.Bytes;
      assert forall k :: 0 <= k < |l| - 1 ==> l[1..][k] == l[k + 1];
      BytesFromAbove(l[1..], n);
    }
  }

  lemma FamilyBytes(l: Layout, n: nat)
    requires AllWithin(l, n)
    ensures |Concat(Held(l))| <= |l| * n
  {
    BytesFromAbove(l, n);
    TimesIs(|l|, n);
    hide *;
  }

  lemma BoundedBy(l: Layout, maxSize: nat, texts: seq<string>, longest: nat, n: nat)
    requires IsLayout(l) && |l| > 1 && NothingAdded(l) && AllWithin(l, n)
    requires 0 < maxSize < TWO_63 && n == maxSize - 1 + longest
    requires forall t <- texts :: |t| <= longest
    ensures |Concat(Held(AfterAll(l, maxSize, texts)))| <= |l| * n
  {
    hide *;
    EveryFileBounded(l, maxSize, texts, longest);
    FamilyBytes(AfterAll(l, maxSize, texts), n);
  }

  /** A family none of whose files is over the bound at the start, an empty one for example,
      never holds more than slots * (maxSize - 1 + longest) bytes. */
  lemma RetainedFromAbove(l: Layout, maxSize: nat, texts: seq<string>, longest: nat)
    requires IsLayout(l) && |l| > 1 && NothingAdded(l) && 0 < maxSize < TWO_63
    requires AllWithin(l, maxSize - 1 + longest)
    requires forall t <- texts :: |t| <= longest
    ensures |Concat(Held(AfterAll(l, maxSize, texts)))| <= |l| * (maxSize - 1 + longest)
  {
    hide *;
    BoundedBy(l, maxSize, texts, longest, maxSize - 1 + longest);
  }
}
