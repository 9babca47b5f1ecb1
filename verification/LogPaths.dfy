/** Where the configured logs are, and when their names collide. */
module LogPaths {
  import opened Text
  import opened Rotation
  import opened Logger

  predicate IsRelative(path: string) { path != "" && path[0] != '/' }

  /** A relative log name is looked up in the log directory. */
  function CombineLogPath(dir: string, path: string): string {
    if IsRelative(path) then
      if dir != "" && dir[|dir| - 1] == '/' then dir + path else dir + "/" + path
    else
      path
  }

  /** The directory with its slash. */
  function Prefix(dir: string): (prefix: string)
    ensures prefix != "" && prefix[|prefix| - 1] == '/'
  {
    if dir != "" && dir[|dir| - 1] == '/' then dir else dir + "/"
  }

  /** A relative name lands in the configured directory: the directory, one slash, the name.
      A name with a leading slash, or none, stays as it is. */
  lemma LandsInDirectory(dir: string, path: string)
    ensures (path == "" || path[0] == '/') ==> CombineLogPath(dir, path) == path
    ensures path != "" && path[0] != '/' ==>
              var full := CombineLogPath(dir, path);
              var n := |full| - |path|;
              && n > 0 && full[n..] == path && full[n - 1] == '/'
              && dir <= full && (n == |dir| || n == |dir| + 1)
              && (dir != "" && dir[|dir| - 1] == '/' ==> n == |dir|)
  {
  }

  lemma SlotBehindPrefix(prefix: string, name: string, i: nat)
    ensures Slot(prefix + name, i) == prefix + Slot(name, i)
  {
    if i > 0 {
      assert prefix + name + "." + Decimal(i) == prefix + (name + "." + Decimal(i));
    }
  }

  lemma SamePrefix(prefix: string, a: string, b: string)
    ensures prefix + a == prefix + b <==> a == b
  {
    assert (prefix + a)[|prefix|..] == a && (prefix + b)[|prefix|..] == b;
  }

  lemma RotatedNameBehindPrefix(prefix: string, a: string, b: string)
    ensures IsRotatedName(prefix + a, prefix + b) <==> IsRotatedName(a, b)
  {
    if IsRotatedName(prefix + a, prefix + b) {
      var i: nat :| i > 0 && prefix + a == Slot(prefix + b, i);
      SlotBehindPrefix(prefix, b, i);
      SamePrefix(prefix, a, Slot(b, i));
    }
    if IsRotatedName(a, b) {
      var i: nat :| i > 0 && a == Slot(b, i);
      SlotBehindPrefix(prefix, b, i);
    }
  }

  lemma ApartBehindPrefix(prefix: string, a: string, b: string)
    ensures Apart(prefix + a, prefix + b) <==> Apart(a, b)
  {
    SamePrefix(prefix, a, b);
    RotatedNameBehindPrefix(prefix, a, b);
    RotatedNameBehindPrefix(prefix, b, a);
  }

  /** A name outside a directory never collides with one inside. */
  lemma OutsideIsApart(prefix: string, a: string, b: string)
    requires prefix != "" && prefix[|prefix| - 1] == '/' && !(prefix <= b)
    ensures Apart(prefix + a, b)
  {
    var inside := prefix + a;
    assert prefix <= inside;
    forall i: nat | i > 0 ensures b != Slot(inside, i) {
      assert prefix <= Slot(inside, i);
    }
    forall i: nat | i > 0 ensures inside != Slot(b, i) {
      NoSlashInNumber(b, i, |prefix| - 1);
    }
  }

  lemma NoSlashInNumber(path: string, i: nat, k: nat)
    requires i > 0
    ensures |path| <= k < |Slot(path, i)| ==> Slot(path, i)[k] != '/'
  {
    var name := Slot(path, i);
    assert forall j :: |path| < j < |name| ==> name[j] == Decimal(i)[j - |path| - 1];
  }

  /** When two configured logs keep out of each other's files: relative names when the names
      do, whatever the directory; other names when they do themselves; and a relative name
      and another one unless the other lies in the directory and collides there. */
  lemma ConfiguredLogsApart(dir: string, a: string, b: string)
    ensures var apart, prefix := Apart(CombineLogPath(dir, a), CombineLogPath(dir, b)), Prefix(dir);
            if IsRelative(a) == IsRelative(b) then apart <==> Apart(a, b)
            else if IsRelative(a) then apart <==> !(prefix <= b) || Apart(a, b[|prefix|..])
            else apart <==> !(prefix <= a) || Apart(b, a[|prefix|..])
  {
    var prefix := Prefix(dir);
    Combined(dir, a);
    Combined(dir, b);
    hide *;
    if IsRelative(a) && IsRelative(b) {
      ApartBehindPrefix(prefix, a, b);
    } else if IsRelative(a) {
      InsideOrOutside(prefix, a, b);
    } else if IsRelative(b) {
      InsideOrOutside(prefix, b, a);
      ApartIsSymmetric(prefix + b, a);
    }
  }

  lemma Combined(dir: string, path: string)
    ensures CombineLogPath(dir, path) == if IsRelative(path) then Prefix(dir) + path else path
  {
  }

  lemma ApartIsSymmetric(p: string, q: string)
    ensures Apart(p, q) <==> Apart(q, p)
  {
  }

  lemma InsideOrOutside(prefix: string, a: string, b: string)
    requires prefix != "" && prefix[|prefix| - 1] == '/'
    ensures Apart(prefix + a, b) <==> !(prefix <= b) || Apart(a, b[|prefix|..])
  {
    if prefix <= b {
      assert b == prefix + b[|prefix|..];
      ApartBehindPrefix(prefix, a, b[|prefix|..]);
    } else {
      OutsideIsApart(prefix, a, b);
    }
  }
}
