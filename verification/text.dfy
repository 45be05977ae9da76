/** Decimal rendering, joining and splitting of text. */
module Text {
  import opened Basics

  // ----- decimal numbers ---------------------------------------------------------------

  const DIGITS: string := "0123456789"

  predicate IsDigit(c: char) {
    '0' <= c <= '9'
  }

  function DigitChar(d: nat): char
    requires d < 10
  {
    DIGITS[d]
  }

  function DigitValue(c: char): nat
    requires IsDigit(c)
  {
    (c - '0') as nat
  }

  ghost predicate AllDigits(s: string) {
    forall i | 0 <= i < |s| :: IsDigit(s[i])
  }

  /** %llu */
  function Dec(n: nat): string {
    if n < 10 then [DigitChar(n)] else Dec(n / 10) + [DigitChar(n % 10)]
  }

  /** %lld */
  function DecInt(n: int): string {
    if n < 0 then "-" + Dec(-n) else Dec(n)
  }

  /** The value of a digit string. */
  function Value(s: string): nat
    requires AllDigits(s)
  {
    if s == "" then 0 else 10 * Value(s[..|s| - 1]) + DigitValue(s[|s| - 1])
  }

  lemma {:induction false} DecIsDigits(n: nat)
    ensures Dec(n) != "" && AllDigits(Dec(n))
  {
    if n >= 10 {
      DecIsDigits(n / 10);
    }
  }

  /** Printing a number and reading the digits back gives the number. */
  lemma {:induction false} DecValue(n: nat)
    ensures Dec(n) != "" && AllDigits(Dec(n)) && Value(Dec(n)) == n
  {
    DecIsDigits(n);
    if n < 10 {
      assert Value([DigitChar(n)][..0]) == 0;
    } else {
      DecIsDigits(n / 10);
      DecValue(n / 10);
      assert Dec(n)[..|Dec(n)| - 1] == Dec(n / 10);
    }
  }

  lemma DecInjective(m: nat, n: nat)
    requires Dec(m) == Dec(n)
    ensures m == n
  {
    DecValue(m);
    DecValue(n);
  }

  lemma DecIntInjective(m: int, n: int)
    requires DecInt(m) == DecInt(n)
    ensures m == n
  {
    DecValue(if m < 0 then -m else m);
    DecValue(if n < 0 then -n else n);
    assert m >= 0 ==> IsDigit(DecInt(m)[0]);
    assert n >= 0 ==> IsDigit(DecInt(n)[0]);
    if m < 0 && n < 0 {
      assert Dec(-m) == DecInt(m)[1..] == DecInt(n)[1..] == Dec(-n);
    }
  }

  /** `s` is the decimal text of `n`: a minus sign for negative numbers, then digits of its
      magnitude without leading zeros. */
  ghost predicate Prints(s: string, n: int) {
    && (n < 0 ==> s != "" && s[0] == '-')
    && ShortDigits(if n < 0 then s[1..] else s, if n < 0 then -n else n)
  }

  ghost predicate ShortDigits(s: string, n: nat) {
    s != "" && AllDigits(s) && Value(s) == n && (|s| > 1 ==> s[0] != '0')
  }

  lemma {:induction false} DecIsShort(n: nat)
    ensures ShortDigits(Dec(n), n) && (n > 0 ==> Dec(n)[0] != '0')
  {
    DecValue(n);
    if n >= 10 {
      DecIsShort(n / 10);
    }
  }

  lemma {:induction false} ShortIsDec(s: string, n: nat)
    requires ShortDigits(s, n)
    ensures s == Dec(n) && (s[0] != '0' ==> n > 0)
    decreases |s|
  {
    hide Dec, DigitChar, DigitValue;
    var k := |s| - 1;
    DigitBack(s[k]);
    if k == 0 {
      assert s[..0] == "" && s == [s[0]];
      DecDigit(n);
    } else {
      var front := Value(s[..k]);
      ShortIsDec(s[..k], front);
      DecAppend(front, DigitValue(s[k]));
      assert s == s[..k] + [s[k]];
    }
  }

  lemma DigitBack(c: char)
    requires IsDigit(c)
    ensures DigitValue(c) < 10 && DigitChar(DigitValue(c)) == c && (c != '0' ==> DigitValue(c) > 0)
  {}

  lemma DecDigit(n: nat)
    requires n < 10
    ensures Dec(n) == [DigitChar(n)]
  {}

  lemma DecAppend(n: nat, d: nat)
    requires n > 0 && d < 10
    ensures Dec(10 * n + d) == Dec(n) + [DigitChar(d)]
  {}

  /** A number has exactly one such text, and that is what is printed. */
  lemma PrintsOnce(s: string, n: int)
    ensures Prints(s, n) <==> s == DecInt(n)
  {
    var m := if n < 0 then -n else n;
    DecIsShort(m);
    if n < 0 {
      assert DecInt(n)[1..] == Dec(m);
      if Prints(s, n) {
        ShortIsDec(s[1..], m);
        assert s == [s[0]] + s[1..];
      }
    } else if Prints(s, n) {
      ShortIsDec(s, m);
    }
  }

  function Pow10(k: nat): nat {
    if k == 0 then 1 else 10 * Pow10(k - 1)
  }

  /** A number below ten to the k-th takes at most k digits. */
  lemma {:induction false} DecLength(n: nat, k: nat)
    requires 0 < k && n < Pow10(k)
    ensures |Dec(n)| <= k
  {
    if n >= 10 {
      DecLength(n / 10, k - 1);
    }
  }

  // ----- joining and splitting -----------------------------------------------------------

  ghost predicate Free(s: string, sep: char) {
    forall i | 0 <= i < |s| :: s[i] != sep
  }

  function Join(parts: seq<string>, sep: char): string {
    if parts == [] then ""
    else if |parts| == 1 then parts[0]
    else Join(parts[..|parts| - 1], sep) + [sep] + parts[|parts| - 1]
  }

  /** Position of the last separator, or -1. */
  function LastIndex(s: string, sep: char): (r: int)
    ensures -1 <= r < |s|
    ensures r >= 0 ==> s[r] == sep
    ensures forall i | r < i < |s| :: s[i] != sep
  {
    if s == "" then -1
    else if s[|s| - 1] == sep then |s| - 1
    else LastIndex(s[..|s| - 1], sep)
  }

  /** str.split(sep): always at least one part. */
  function Split(s: string, sep: char): (r: seq<string>)
    ensures |r| > 0
    decreases |s|
  {
    var k := LastIndex(s, sep);
    if k < 0 then [s] else Split(s[..k], sep) + [s[k + 1..]]
  }

  lemma LastIndexOf(a: string, sep: char, b: string)
    requires Free(b, sep)
    ensures LastIndex(a + [sep] + b, sep) == |a|
    ensures LastIndex(b, sep) == -1
  {
    hide LastIndex;
    var s := a + [sep] + b;
    assert s[|a|] == sep;
    assert forall i | |a| < i < |s| :: s[i] == b[i - |a| - 1];
  }

  /** Splitting undoes joining, for parts that do not contain the separator. */
  lemma {:induction false} SplitJoin(parts: seq<string>, sep: char)
    requires parts != []
    requires forall i | 0 <= i < |parts| :: Free(parts[i], sep)
    ensures Split(Join(parts, sep), sep) == parts
  {
    var n := |parts| - 1;
    LastIndexOf(Join(parts[..n], sep), sep, parts[n]);
    if n > 0 {
      var s := Join(parts[..n], sep);
      SplitJoin(parts[..n], sep);
      assert Join(parts, sep) == s + [sep] + parts[n];
      assert (s + [sep] + parts[n])[..|s|] == s && (s + [sep] + parts[n])[|s| + 1..] == parts[n];
      assert parts == parts[..n] + [parts[n]];
    }
  }

  /** Joining undoes splitting, for every text. */
  lemma {:induction false} JoinSplit(s: string, sep: char)
    ensures Join(Split(s, sep), sep) == s
    ensures forall i | 0 <= i < |Split(s, sep)| :: Free(Split(s, sep)[i], sep)
    decreases |s|
  {
    var k := LastIndex(s, sep);
    if k >= 0 {
      JoinSplit(s[..k], sep);
      var front := Split(s[..k], sep);
      var all := Split(s, sep);
      assert all[..|all| - 1] == front;
      assert s == s[..k] + [sep] + s[k + 1..];
    }
  }

  lemma {:induction false} JoinLength(parts: seq<string>, sep: char, most: seq<nat>)
    requires |parts| == |most| > 0
    requires forall i | 0 <= i < |parts| :: |parts[i]| <= most[i]
    ensures |Join(parts, sep)| <= Sum(most) + |parts| - 1
  {
    var n := |parts| - 1;
    if n > 0 {
      JoinLength(parts[..n], sep, most[..n]);
    } else {
      assert Sum(most[..0]) == 0;
    }
  }

  function Sum(s: seq<nat>): nat {
    if s == [] then 0 else Sum(s[..|s| - 1]) + s[|s| - 1]
  }
}
