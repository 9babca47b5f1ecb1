/** What the components share: optional values, decimal printing, the integer scanner of
    the C++ library, letter case and C strings. */
module Text {
  datatype Option<+T> = None | Some(value: T)

  function Lookup<T>(m: map<string, T>, key: string): Option<T> {
    if key in m then Some(m[key]) else None
  }

  predicate NoNewline(s: string) { '\n' !in s }

  predicate IsDigit(c: char) { '0' <= c <= '9' }

  predicate AllDigits(s: string) { forall k :: 0 <= k < |s| ==> IsDigit(s[k]) }

  function DigitChar(d: nat): (c: char)
    requires d < 10
    ensures IsDigit(c) && DigitValue(c) == d
  {
    '0' + d as char
  }

  function DigitValue(c: char): (d: nat)
    requires IsDigit(c)
    ensures d < 10
  {
    c as int - '0' as int
  }

  /** Decimal notation of a number that is not negative. */
  function Decimal(n: nat): (s: string)
    ensures s != "" && AllDigits(s)
  {
    if n < 10 then [DigitChar(n)] else Decimal(n / 10) + [DigitChar(n % 10)]
  }

  /** `std::to_string` on an integer. */
  function ToString(n: int): string {
    if n < 0 then "-" + Decimal(-n) else Decimal(n)
  }

  /** The number a run of digits denotes. */
  function Value(s: string): nat
    requires AllDigits(s)
  {
    if s == "" then 0 else Value(s[..|s| - 1]) * 10 + DigitValue(s[|s| - 1])
  }

  lemma {:induction false} ValueOfDecimal(n: nat)
    ensures Value(Decimal(n)) == n
  {
    if n >= 10 {
      ValueOfDecimal(n / 10);
      assert Decimal(n)[..|Decimal(n)| - 1] == Decimal(n / 10);
    }
  }

  /** Decimal printing is injective. */
  lemma DecimalInjective(m: nat, n: nat)
    requires Decimal(m) == Decimal(n)
    ensures m == n
  {
    ValueOfDecimal(m);
    ValueOfDecimal(n);
  }

  const INT_MIN := -0x8000_0000
  const INT_MAX := 0x7fff_ffff

  predicate FitsInt(n: int) { INT_MIN <= n <= INT_MAX }

  /** The white space that the C library's `isspace` recognises. */
  predicate IsSpace(c: char) { c == ' ' || '\t' <= c <= '\r' }

  function SkipSpaces(s: string): string {
    if s != "" && IsSpace(s[0]) then SkipSpaces(s[1..]) else s
  }

  /** The longest prefix of digits. */
  function DigitRun(s: string): (ds: string)
    ensures AllDigits(ds)
  {
    if s != "" && IsDigit(s[0]) then [s[0]] + DigitRun(s[1..]) else ""
  }

  /** The digits at the front of `s` as a number of the given sign. */
  function ScanDigits(negative: bool, s: string): (r: Option<int>)
    ensures r.Some? ==> FitsInt(r.value)
  {
    var digits := DigitRun(s);
    var v: int := Value(digits);
    var n := if negative then -v else v;
    if digits != "" && FitsInt(n) then Some(n) else None
  }

  /** `std::stoi`: leading white space, one optional sign, then digits; what follows
      the digits is ignored. None stands for the exceptions it throws when there is
      no digit or the number does not fit. */
  function Stoi(s: string): (r: Option<int>)
    ensures r.Some? ==> FitsInt(r.value)
  {
    var t := SkipSpaces(s);
    if t == "" then None
    else if t[0] == '-' then ScanDigits(true, t[1..])
    else if t[0] == '+' then ScanDigits(false, t[1..])
    else ScanDigits(false, t)
  }

  lemma {:induction false} DigitRunStops(ds: string, rest: string)
    requires AllDigits(ds)
    requires rest == "" || !IsDigit(rest[0])
    ensures DigitRun(ds + rest) == ds
  {
    if ds == "" {
      assert ds + rest == rest;
    } else {
      assert (ds + rest)[1..] == ds[1..] + rest;
      DigitRunStops(ds[1..], rest);
    }
  }

  lemma ScanDecimal(negative: bool, n: nat, rest: string)
    requires rest == "" || !IsDigit(rest[0])
    ensures ScanDigits(negative, Decimal(n) + rest)
            == var v: int := if negative then 0 - n else n; if FitsInt(v) then Some(v) else None
  {
    ValueOfDecimal(n);
    DigitRunStops(Decimal(n), rest);
  }

  /** Scanning a printed number gives it back exactly when it fits in an `int`. */
  lemma StoiOfToString(n: int, rest: string)
    requires rest == "" || !IsDigit(rest[0])
    ensures Stoi(ToString(n) + rest) == if FitsInt(n) then Some(n) else None
  {
    var ds := Decimal(if n < 0 then -n else n);
    ScanDecimal(n < 0, if n < 0 then -n else n, rest);
    var t := ToString(n) + rest;
    if n < 0 {
      assert t[0] == '-' && t[1..] == ds + rest;
    } else {
      assert t[0] == ds[0] && t == ds + rest;
    }
    assert SkipSpaces(t) == t;
  }

  // ----- Numbers as they are written -----

  /** Decimal notation: the digits from 0 to 9, the most significant first. */
  lemma DecimalNotation(n: nat, d: nat)
    requires d < 10
    ensures Decimal(10 * n + d) == (if n == 0 then "" else Decimal(n)) + ["0123456789"[d]]
  {
    assert (10 * n + d) / 10 == n && (10 * n + d) % 10 == d;
    assert "0123456789"[d] == DigitChar(d);
  }

  /** An `int` has 32 bits. */
  lemma IntRange(n: int)
    ensures FitsInt(n) <==> -2147483648 <= n <= 2147483647
  {
  }

  /** A blank, a tab, a newline, a vertical tab, a form feed or a carriage return. */
  predicate IsBlankCode(c: char) { c as int == 32 || 9 <= c as int <= 13 }

  lemma {:induction false} BlanksAreSkipped(w: string, s: string)
    requires forall k :: 0 <= k < |w| ==> IsBlankCode(w[k])
    ensures SkipSpaces(w + s) == SkipSpaces(s) && Stoi(w + s) == Stoi(s)
  {
    if w == "" {
      assert w + s == s;
    } else {
      assert (w + s)[1..] == w[1..] + s;
      BlanksAreSkipped(w[1..], s);
    }
  }

  /** A plus sign changes nothing. */
  lemma PlusSign(n: nat, rest: string)
    requires rest == "" || !IsDigit(rest[0])
    ensures Stoi("+" + (Decimal(n) + rest)) == if FitsInt(n) then Some(n) else None
  {
    var t := "+" + (Decimal(n) + rest);
    assert t[1..] == Decimal(n) + rest;
    ScanDecimal(false, n, rest);
  }

  /** There is no number in a text whose first character behind the blanks is neither a
      digit nor a sign, or that has a sign but no digit behind it. */
  lemma NoLeadingNumber(w: string, s: string)
    requires forall k :: 0 <= k < |w| ==> IsBlankCode(w[k])
    requires || s == ""
             || (!('0' <= s[0] <= '9') && !IsBlankCode(s[0]) && s[0] != '+' && s[0] != '-')
             || ((s[0] == '+' || s[0] == '-') && (|s| == 1 || !('0' <= s[1] <= '9')))
    ensures Stoi(w + s) == None
  {
    BlanksAreSkipped(w, s);
    assert SkipSpaces(s) == s;
    if s != "" {
      assert DigitRun(s[1..]) == "" || IsDigit(s[1..][0]);
    }
  }

  /** `std::tolower` in the C locale. */
  function LowerChar(c: char): char {
    if 'A' <= c <= 'Z' then 'a' + (c as int - 'A' as int) as char else c
  }

  function Lower(s: string): (r: string)
    ensures |r| == |s| && forall k :: 0 <= k < |s| ==> r[k] == LowerChar(s[k])
  {
    seq(|s|, k requires 0 <= k < |s| => LowerChar(s[k]))
  }

  /** The C string in a buffer: what comes before its first NUL. */
  function CString(buf: string): (s: string)
    ensures s <= buf && '\0' !in s
    ensures |s| < |buf| ==> buf[|s|] == '\0'
  {
    if buf == "" || buf[0] == '\0' then "" else [buf[0]] + CString(buf[1..])
  }

  /** Every character replaced by a text. */
  function MapChars(s: string, f: char -> string): string {
    if s == "" then "" else MapChars(s[..|s| - 1], f) + f(s[|s| - 1])
  }

  lemma {:induction false} MapCharsConcat(a: string, b: string, f: char -> string)
    ensures MapChars(a + b, f) == MapChars(a, f) + MapChars(b, f)
  {
    if b == "" {
      assert a + b == a;
    } else {
      assert (a + b)[..|a + b| - 1] == a + b[..|b| - 1];
      MapCharsConcat(a, b[..|b| - 1], f);
    }
  }

  lemma MapCharsCons(c: char, s: string, f: char -> string)
    ensures MapChars([c] + s, f) == f(c) + MapChars(s, f)
  {
    MapCharsConcat([c], s, f);
    assert [c][..0] == "" && MapChars([c], f) == "" + f(c);
  }
}
