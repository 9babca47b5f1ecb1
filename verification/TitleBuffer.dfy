/** Trimming a song title in its character buffer. */
module TitleBuffer {
  import opened Text

  lemma {:induction false} CStringIs(buf: string, s: string)
    requires s <= buf && '\0' !in s && |s| < |buf| && buf[|s|] == '\0'
    ensures CString(buf) == s
  {
    if s != "" {
      assert buf[0] == s[0] && s[0] in s;
      CStringIs(buf[1..], s[1..]);
    }
  }

  function TrimmedRight(s: string): string {
    if |s| > 1 && s[|s| - 1] == ' ' then TrimmedRight(s[..|s| - 1]) else s
  }

  /** Only blanks at the end go, all of them, except that the first character stays even
      when it is a blank. */
  lemma {:induction false} TrimmedRightIs(s: string, r: string)
    ensures r == TrimmedRight(s) <==>
            && r <= s && (s != "" ==> r != "")
            && (forall k :: |r| <= k < |s| ==> s[k] == ' ')
            && (|r| > 1 ==> r[|r| - 1] != ' ')
  {
    if |s| > 1 && s[|s| - 1] == ' ' {
      var t := s[..|s| - 1];
      TrimmedRightIs(t, r);
      assert r <= t && r != "" <==> r <= s && r != "" && r != s;
      assert forall k :: |r| <= k < |t| ==> t[k] == s[k];
    }
  }

  /** The buffer with NULs from position m up to n. */
  function Cleared(buf: string, m: nat, n: nat): (r: string)
    ensures |r| == |buf| && forall k :: 0 <= k < |buf| ==> r[k] == if m <= k < n then '\0' else buf[k]
  {
    seq(|buf|, k requires 0 <= k < |buf| => if m <= k < n then '\0' else buf[k])
  }

  /** The blanks are overwritten with NULs from the end, in place; nothing else in the
      buffer changes. */
  method TrimRight(buf: array<char>)
    requires '\0' in buf[..]
    modifies buf
    ensures CString(buf[..]) == TrimmedRight(old(CString(buf[..])))
    ensures buf[..] == Cleared(old(buf[..]), |CString(buf[..])|, |old(CString(buf[..]))|)
  {
    ghost var before := buf[..];
    ghost var was := CString(before);
    NulIsThere(before);
    hide *;
    var n := StringLength(buf);
    var p := n - 1;
    assert was[..n] == was && before == Cleared(before, n, n);
    while p > 0
      invariant -1 <= p < n && (n > 0 ==> p >= 0)
      invariant buf[..] == Cleared(before, p + 1, n)
      invariant TrimmedRight(was[..p + 1]) == TrimmedRight(was)
    {
      assert buf[p] == buf[..][p] == before[p];
      if buf[p] != ' ' {
        break;
      }
      DropBlank(was, p);
      ClearOneMore(before, p, n);
      ghost var cleared := buf[..];
      buf[p] := '\0';
      assert buf[..] == cleared[p := '\0'];
      p := p - 1;
    }
    NothingToTrim(was[..p + 1]);
    CStringOfCleared(before, p + 1);
  }

  lemma DropBlank(s: string, p: nat)
    requires 0 < p < |s| && s[p] == ' '
    ensures TrimmedRight(s[..p]) == TrimmedRight(s[..p + 1])
  {
    assert s[..p + 1][..p] == s[..p];
  }

  lemma NothingToTrim(s: string)
    requires |s| <= 1 || s[|s| - 1] != ' '
    ensures TrimmedRight(s) == s
  {
  }

  lemma ClearOneMore(buf: string, p: nat, n: nat)
    requires p < n <= |buf|
    ensures Cleared(buf, p + 1, n)[p := '\0'] == Cleared(buf, p, n)
  {
  }

  lemma CStringOfCleared(buf: string, m: nat)
    requires m <= |CString(buf)| < |buf|
    ensures CString(Cleared(buf, m, |CString(buf)|)) == CString(buf)[..m]
  {
    var s := CString(buf)[..m];
    assert forall c <- s :: c in CString(buf);
    CStringIs(Cleared(buf, m, |CString(buf)|), s);
  }

  lemma NulIsThere(buf: string)
    requires '\0' in buf
    ensures |CString(buf)| < |buf| && forall k :: 0 <= k < |CString(buf)| ==> buf[k] == CString(buf)[k]
  {
  }

  method StringLength(buf: array<char>) returns (n: int)
    requires '\0' in buf[..]
    ensures n == |CString(buf[..])|
  {
    n := 0;
    NulIsThere(buf[..]);
    while buf[n] != '\0'
      invariant 0 <= n <= |CString(buf[..])|
      decreases buf.Length - n
    {
      assert n < |CString(buf[..])|;
      n := n + 1;
    }
  }
}
