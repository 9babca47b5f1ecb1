/** Reading a time span such as `30s`, `5m` or `1HR` as milliseconds. */
module Duration {
  import opened Text

  datatype Unit = Bare | Millis | Second | Minute | Hour | HourLong

  function Suffix(u: Unit): string {
    match u
    case Bare => ""
    case Millis => "ms"
    case Second => "s"
    case Minute => "m"
    case Hour => "h"
    case HourLong => "hr"
  }

  function Factor(u: Unit): int {
    match u
    case Bare => 1
    case Millis => 1
    case Second => 1000
    case Minute => 60 * 1000
    case Hour => 60 * 60 * 1000
    case HourLong => 60 * 60 * 1000
  }

  predicate EndsIn(s: string, c: char) { s != "" && s[|s| - 1] == c }

  predicate EndsInTwo(s: string, b: char, c: char) { |s| >= 2 && s[|s| - 2] == b && s[|s| - 1] == c }

  /** The comparisons in the order in which the program makes them, `s` and `m` before `hr`. */
  function UnitOf(lower: string): Unit {
    if EndsInTwo(lower, 'm', 's') then Millis
    else if EndsIn(lower, 's') then Second
    else if EndsIn(lower, 'm') then Minute
    else if EndsInTwo(lower, 'h', 'r') then HourLong
    else if EndsIn(lower, 'h') then Hour
    else Bare
  }

  function Length(u: Unit): nat {
    match u
    case Bare => 0
    case Millis => 2
    case HourLong => 2
    case _ => 1
  }

  /** The text in front of the unit. */
  function NumberText(lower: string): string {
    lower[..|lower| - Length(UnitOf(lower))]
  }

  // ----- No unit is read as another -----

  predicate EndsWith(s: string, t: string) { |t| <= |s| && s[|s| - |t|..] == t }

  lemma EndsWithOne(s: string, c: char)
    ensures EndsWith(s, [c]) <==> EndsIn(s, c)
  {
    if s != "" {
      assert s[|s| - 1..] == [s[|s| - 1]];
    }
  }

  lemma EndsWithTwo(s: string, b: char, c: char)
    ensures EndsWith(s, [b, c]) <==> EndsInTwo(s, b, c)
  {
    if |s| >= 2 {
      assert s[|s| - 2..] == [s[|s| - 2], s[|s| - 1]];
    }
  }

  predicate HasUnit(lower: string, u: Unit) {
    match u
    case Bare => true
    case Millis => EndsInTwo(lower, 'm', 's')
    case Second => EndsIn(lower, 's')
    case Minute => EndsIn(lower, 'm')
    case Hour => EndsIn(lower, 'h')
    case HourLong => EndsInTwo(lower, 'h', 'r')
  }

  lemma HasUnitIsSuffix(lower: string, u: Unit)
    ensures HasUnit(lower, u) <==> EndsWith(lower, Suffix(u))
    ensures Length(u) == |Suffix(u)|
  {
    EndsWithOne(lower, 's');
    EndsWithOne(lower, 'm');
    EndsWithOne(lower, 'h');
    EndsWithTwo(lower, 'm', 's');
    EndsWithTwo(lower, 'h', 'r');
    hide EndsIn, EndsInTwo;
    if u.Bare? {
      assert lower[|lower|..] == "";
    }
    hide EndsWith;
  }

  lemma NoLongerUnit(lower: string, w: Unit)
    requires HasUnit(lower, w)
    ensures Length(w) < Length(UnitOf(lower)) || w == UnitOf(lower)
    ensures HasUnit(lower, UnitOf(lower))
  {
  }

  /** The unit is always the longest suffix that names one: no unit is ever read as
      another, in whatever order the program compares. */
  lemma UnitIsLongestSuffix(lower: string, u: Unit)
    ensures u == UnitOf(lower) <==>
            && EndsWith(lower, Suffix(u))
            && forall w: Unit :: EndsWith(lower, Suffix(w)) ==> |Suffix(w)| <= |Suffix(u)|
  {
    var best := UnitOf(lower);
    NoLongerUnit(lower, Bare);
    hide *;
    HasUnitIsSuffix(lower, best);
    forall w: Unit | EndsWith(lower, Suffix(w)) ensures |Suffix(w)| <= |Suffix(best)| {
      HasUnitIsSuffix(lower, w);
      NoLongerUnit(lower, w);
    }
    if EndsWith(lower, Suffix(u)) {
      HasUnitIsSuffix(lower, u);
      NoLongerUnit(lower, u);
    }
  }

  // ----- Reading a setting -----

  /** The milliseconds a setting stands for: the default when it has no number or one out
      of range. None when the product leaves the `int` range, which C++ does not define. */
  function InMillis(setting: string, defaultMs: int): Option<int> {
    var lower := Lower(setting);
    var number := Stoi(NumberText(lower));
    if number.None? then Some(defaultMs)
    else
      var product := number.value * Factor(UnitOf(lower));
      if FitsInt(product) then Some(product) else None
  }

  /** What `n` of a unit come to. */
  function Product(n: int, u: Unit, defaultMs: int): Option<int> {
    if !FitsInt(n) then Some(defaultMs)
    else if FitsInt(n * Factor(u)) then Some(n * Factor(u))
    else None
  }

  lemma PrintedEndsInDigit(n: int)
    ensures ToString(n) != "" && IsDigit(ToString(n)[|ToString(n)| - 1])
  {
    var ds := Decimal(if n < 0 then -n else n);
    assert IsDigit(ds[|ds| - 1]);
  }

  /** Behind a digit only what follows it can be a unit. */
  lemma UnitBehindNumber(printed: string, rest: string)
    requires printed != "" && IsDigit(printed[|printed| - 1])
    ensures UnitOf(printed + rest) == UnitOf(rest) && Length(UnitOf(rest)) <= |rest|
    ensures NumberText(printed + rest) == printed + NumberText(rest)
  {
    assert rest == "" ==> printed + rest == printed;
  }

  /** The same letters, some of them perhaps as capitals, which come 32 code points earlier. */
  predicate Spells(t: string, word: string) {
    && |t| == |word|
    && forall k :: 0 <= k < |t| ==>
         t[k] == word[k] || ('a' <= word[k] <= 'z' && t[k] as int == word[k] as int - 32)
  }

  predicate NoCapitals(word: string) { forall k :: 0 <= k < |word| ==> !('A' <= word[k] <= 'Z') }

  lemma LowerOfSpelling(t: string, word: string)
    requires Spells(t, word) && NoCapitals(word)
    ensures Lower(t) == word
  {
  }

  lemma PrintedSpells(n: int, t: string, word: string)
    requires Spells(t, word) && NoCapitals(word)
    ensures Spells(ToString(n) + t, ToString(n) + word) && NoCapitals(ToString(n) + word)
  {
    assert NoCapitals(ToString(n)) by {
      assert AllDigits(Decimal(if n < 0 then -n else n));
    }
    hide ToString;
  }

  /** In a setting that starts with a printed number only that number and the unit at the
      very end count; whatever stands between them is ignored, and so is letter case. */
  lemma NumberAndLastUnitCount(n: int, t: string, rest: string, defaultMs: int)
    requires Spells(t, rest) && NoCapitals(rest) && (rest == "" || !IsDigit(rest[0]))
    ensures InMillis(ToString(n) + t, defaultMs) == Product(n, UnitOf(rest), defaultMs)
  {
    var between := NumberText(rest);
    assert between == "" || between[0] == rest[0];
    hide NumberText, UnitOf, Factor, Lower, ToString, Stoi, Spells, NoCapitals;
    PrintedSpells(n, t, rest);
    LowerOfSpelling(ToString(n) + t, ToString(n) + rest);
    PrintedEndsInDigit(n);
    UnitBehindNumber(ToString(n), rest);
    StoiOfToString(n, between);
  }

  /** A printed duration reads back, in any letter case, whenever it fits. */
  lemma DurationReadsBack(n: int, u: Unit, t: string, defaultMs: int)
    requires Spells(t, Suffix(u))
    ensures InMillis(ToString(n) + t, defaultMs) == Product(n, u, defaultMs)
  {
    OwnUnit(u);
    hide *;
    NumberAndLastUnitCount(n, t, Suffix(u), defaultMs);
  }

  lemma OwnUnit(u: Unit)
    ensures UnitOf(Suffix(u)) == u && (Suffix(u) == "" || !IsDigit(Suffix(u)[0])) && NoCapitals(Suffix(u))
  {
  }

  /** `n` times so many milliseconds, or the default when `n` is out of range. */
  function Times(n: int, millis: int, defaultMs: int): Option<int> {
    if n < -2147483648 || n > 2147483647 then Some(defaultMs)
    else if -2147483648 <= n * millis <= 2147483647 then Some(n * millis) else None
  }

  /** The documented suffixes and what they stand for. */
  lemma SuffixesAsDocumented(n: int, defaultMs: int)
    ensures InMillis(ToString(n), defaultMs) == Times(n, 1, defaultMs)
    ensures InMillis(ToString(n) + "ms", defaultMs) == Times(n, 1, defaultMs)
    ensures InMillis(ToString(n) + "s", defaultMs) == Times(n, 1000, defaultMs)
    ensures InMillis(ToString(n) + "m", defaultMs) == Times(n, 60000, defaultMs)
    ensures InMillis(ToString(n) + "h", defaultMs) == Times(n, 3600000, defaultMs)
    ensures InMillis(ToString(n) + "hr", defaultMs) == Times(n, 3600000, defaultMs)
  {
    assert ToString(n) + "" == ToString(n);
    hide ToString, InMillis, Times;
    SuffixCounts(n, Bare, defaultMs);
    SuffixCounts(n, Millis, defaultMs);
    SuffixCounts(n, Second, defaultMs);
    SuffixCounts(n, Minute, defaultMs);
    SuffixCounts(n, Hour, defaultMs);
    SuffixCounts(n, HourLong, defaultMs);
  }

  lemma SuffixCounts(n: int, u: Unit, defaultMs: int)
    ensures InMillis(ToString(n) + Suffix(u), defaultMs) == Times(n, Factor(u), defaultMs)
  {
    hide ToString, InMillis, Suffix, Factor;
    DurationReadsBack(n, u, Suffix(u), defaultMs);
  }

  /** `5M` is five minutes. */
  lemma CapitalsCount(defaultMs: int)
    ensures InMillis("5M", defaultMs) == Some(300000)
  {
    DecimalNotation(0, 5);
    assert ToString(5) == "5" && "5" + "M" == "5M";
    hide ToString;
    DurationReadsBack(5, Minute, "M", defaultMs);
  }

  /** A setting without a leading number is the default. */
  lemma NoNumberIsDefault(w: string, s: string, defaultMs: int)
    requires forall k :: 0 <= k < |w| ==> IsBlankCode(w[k])
    requires s == "" || (!('0' <= s[0] <= '9') && !IsBlankCode(s[0]) && s[0] != '+' && s[0] != '-')
    ensures InMillis(w + s, defaultMs) == Some(defaultMs)
  {
    var lower := Lower(w + s);
    var number := NumberText(lower);
    var n := |number|;
    assert forall k :: 0 <= k < |w| ==> lower[k] == w[k];
    if n <= |w| {
      assert number == w[..n] && number + "" == number;
      NoLeadingNumber(number, "");
    } else {
      var more := number[|w|..];
      assert number == w + more && more[0] == LowerChar(s[0]);
      NoLeadingNumber(w, more);
    }
  }

  /** An hour and a half, written with two units, reads as one minute. */
  lemma CompoundIsMisread(defaultMs: int)
    ensures InMillis("1h30m", defaultMs) == Some(60000)
  {
    var rest := "h30m";
    DecimalNotation(0, 1);
    assert ToString(1) == "1" && "1" + rest == "1h30m";
    assert UnitOf(rest) == Minute && Spells(rest, rest) && NoCapitals(rest);
    hide ToString, Spells, NoCapitals, UnitOf;
    NumberAndLastUnitCount(1, rest, rest, defaultMs);
  }

  lemma SpellsConcat(a: string, x: string, b: string, y: string)
    requires Spells(a, x) && NoCapitals(x) && Spells(b, y) && NoCapitals(y)
    ensures Spells(a + b, x + y) && NoCapitals(x + y)
  {
  }

  /** Two numbers with units, the larger unit in front, as in `1h30m`: in any letter case the
      setting has the value of its sum exactly when both numbers are zero. */
  lemma CompoundReadsAsSum(n: nat, u: Unit, t: string, k: nat, w: Unit, v: string, defaultMs: int)
    requires Factor(u) > Factor(w) && FitsInt(defaultMs)
    requires Spells(t, Suffix(u)) && Spells(v, Suffix(w))
    ensures InMillis(ToString(n) + (t + (ToString(k) + v)), defaultMs) == Some(n * Factor(u) + k * Factor(w))
            <==> n == 0 && k == 0
  {
    var rest := Suffix(u) + (ToString(k) + Suffix(w));
    OwnUnit(u);
    OwnUnit(w);
    assert Suffix(u) != "" && rest[0] == Suffix(u)[0];
    PrintedEndsInDigit(k);
    assert rest == (Suffix(u) + ToString(k)) + Suffix(w);
    hide Spells, NoCapitals, ToString, Suffix, InMillis;
    EndsInSame(Suffix(u), ToString(k));
    UnitBehindNumber(Suffix(u) + ToString(k), Suffix(w));
    PrintedSpells(k, v, Suffix(w));
    SpellsConcat(t, Suffix(u), ToString(k) + v, ToString(k) + Suffix(w));
    NumberAndLastUnitCount(n, t + (ToString(k) + v), rest, defaultMs);
    hide *;
    LargerSum(n, u, k, w, defaultMs);
  }

  lemma EndsInSame(a: string, b: string)
    requires b != ""
    ensures (a + b)[|a + b| - 1] == b[|b| - 1]
  {
  }

  lemma LargerSum(n: nat, u: Unit, k: nat, w: Unit, defaultMs: int)
    requires Factor(u) > Factor(w) && FitsInt(defaultMs)
    ensures Product(n, w, defaultMs) == Some(n * Factor(u) + k * Factor(w)) <==> n == 0 && k == 0
  {
    var a, b := Factor(u), Factor(w);
    assert b > 0;
    assert n > 0 ==> n * a > n * b && n * a >= n;
    assert k > 0 ==> k * b > 0;
  }
}
